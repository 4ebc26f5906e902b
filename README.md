# Personal finance tracker: filtering and aggregation core

The application keeps a list of income and expense transactions, each booked
on a category, in browser storage. This project models the logic between that
list and what the screens show:

- the **filter engine** (`filterTransactions`): a date range, a set of types
  and a set of categories, all ANDed;
- the **summary aggregator** (`generateSummary`): income and expense totals,
  net amount, and a per-category table;
- the analytics view:
  - the date range of each preset;
  - the **daily bucketizer** behind the bar chart (`prepareBarChartData`);
  - the **category distribution** behind the two pie charts (`preparePieChartData`);
  - the toggles of its filter panel;
- the **list view pipeline**: its own filter with a case-insensitive search,
  the shown totals, the sort by date, the grouping by local day, and the
  filter-state helpers;
- the **collection edits** of the main page: save (an edit or an addition),
  delete by id, and the category bootstrap.

Modules:

| module | file | what it holds |
|---|---|---|
| `Wrappers` | wrappers.dfy | `Option` |
| `JsArray` | js_array.dfy | `Array.prototype.filter`, `findIndex`, a stable `sort` by an integer key, subsequences |
| `JsMap` | js_map.dfy | JavaScript's insertion-ordered `Map` |
| `Types` | types.dfy | the entities of `src/types/index.ts` |
| `Calendar` | calendar.dfy | instants, local days, and ECMAScript `new Date(y, m, d)` |
| `TransactionUtils` | transaction_utils.dfy | `src/utils/transactionUtils.ts` |
| `Selection` | selection.dfy | the membership toggle shared by both filter panels |
| `AnalyticsView` | analytics_view.dfy | `src/components/AnalyticsView.tsx` |
| `TransactionList` | transaction_list.dfy | `src/components/TransactionList.tsx` |
| `IndexPage` | index_page.dfy | `src/pages/Index.tsx` |

The model follows the source's form:

- Expressions built from `filter`, `find`, `map`, `some` and spread become
  functions.
- The loops that mutate accumulators and maps become methods with loop
  invariants, proved against specification functions:
  - `GenerateSummary`;
  - `PrepareBarChartData`;
  - `PreparePieChartData` (with its loops `SeedSlices` and `AddToSlices`);
  - `GroupByDay`.

Representation choices:

- **Amounts** are the transaction's `amount` itself, the number the form accepts, restricted to whole numbers.
- **Instants** are integer milliseconds since the epoch. The transaction's ISO date string becomes the instant it parses to.
- **Local time** is a fixed offset from UTC, so every local day is exactly 86 400 000 ms. The offset (eight hours) is a modelling choice; nothing proved depends on its value.
- **Day keys**: a `yyyy-MM-dd` key is modelled by the day number, which it renders one-to-one.
- **The clock**: the current instant and its local year, month and date enter as a `Clock` value.
- **Browser storage**: what the application reads from storage enters as an `Option` (absent or unparsable is `None`).

## Model

| member | source | states |
|---|---|---|
| `TransactionUtils.DefaultCategoriesKinds` | src/utils/transactionUtils.ts:11-27 | there are 14 built-in categories: five income categories first, then nine expense categories |
| `TransactionUtils.DefaultCategoriesDistinct` | src/utils/transactionUtils.ts:11-27 | no two built-in categories share an id |
| `TransactionUtils.LoadTransactions` | src/utils/transactionUtils.ts:35-44 | missing or unparsable storage gives the empty list; otherwise the stored list |
| `TransactionUtils.LoadCategories` | src/utils/transactionUtils.ts:47-56 | missing or unparsable storage gives the built-in categories; otherwise the stored list |
| `TransactionUtils.FilterTransactions` | src/utils/transactionUtils.ts:73-107 | the result is an in-order subsequence of the input; a transaction is in it iff it passes the date, type and category checks; each axis holds separately: type in a non-empty type list, category in a non-empty category list, `from <= date`, `date <= EndOfDay(to)` |
| `TransactionUtils.FilterWithoutCriteriaIsIdentity` | src/utils/transactionUtils.ts:79-103 | with no bounds and empty type and category lists the filter returns its input unchanged |
| `TransactionUtils.DateRangeBoundaries` | src/utils/transactionUtils.ts:82-91 | the last millisecond of the `to` day passes and the next one does not; `from` itself passes, one millisecond earlier does not, and that earlier instant is still on the `from` day when `from` is not midnight |
| `TransactionUtils.GetTransactionsByType` | src/utils/transactionUtils.ts:152-157 | exactly the transactions of the type, as an in-order subsequence |
| `TransactionUtils.GetTransactionsByCategory` | src/utils/transactionUtils.ts:168-173 | exactly the transactions of the category, as an in-order subsequence |
| `TransactionUtils.GetCategoryById` | src/utils/transactionUtils.ts:160-165 | `None` iff no category has the id; otherwise the first category with it |
| `TransactionUtils.GenerateSummary` | src/utils/transactionUtils.ts:110-144 | the income total is the sum over income transactions; the expense total is the sum over the others; net is their difference; the table is `CategorySummaryOf` (one entry per category, same order and ids; each amount goes to the first entry with its id) |
| `TransactionUtils.ZeroTable` | src/utils/transactionUtils.ts:113-121 | the seeded table has one zero entry per category, carrying that category's id, in category order |
| `TransactionUtils.AddToTable` | src/utils/transactionUtils.ts:132-135 | one transaction keeps the table equal to `CategorySummaryOf` of the transactions seen so far: its amount lands on the first entry with its category id, or nowhere when no entry has it |
| `TransactionUtils.CategorySummaryOf` | src/utils/transactionUtils.ts:116-135 | one entry per input category, in order, with its id; the first category with an id holds that id's total and later duplicates hold 0 |
| `TransactionUtils.CategorySummaryConserves` | src/utils/transactionUtils.ts:132-135 | the table's amounts sum to the total of the transactions whose category is known, also when ids repeat; amounts of unknown categories are dropped from the table |
| `TransactionUtils.TypeTotalsCoverAll` | src/utils/transactionUtils.ts:124-129 | the income and expense totals add up to the sum of all amounts |
| `TransactionUtils.EmptySummaryIsZero` | src/utils/transactionUtils.ts:116-121 | with no transactions both totals and every table entry are 0 |
| `TransactionUtils.SumOfPositivesIsPositive` | src/components/TransactionForm.tsx:52 | a non-empty list of positive amounts has a positive sum |
| `TransactionUtils.FilteredSumBounded` | src/utils/transactionUtils.ts:124-136 | with positive amounts, a sum over any filtered part lies between 0 and the whole sum |
| `TransactionUtils.SumFilterSnoc` | src/utils/transactionUtils.ts:124-136 | appending a transaction grows a filtered sum by its amount exactly when the filter keeps it |
| `TransactionUtils.KnownTotalSnoc` | src/utils/transactionUtils.ts:132-135 | adding an id to the known ids adds that id's total, unless the id was already known |
| `AnalyticsView.DateRangeFromTimeRange` | src/components/AnalyticsView.tsx:87-122 | custom returns the picked range; each other preset has both bounds; every preset except last month ends now; the 7/30/90-day presets (and any unlisted value, as 30 days) start that many local days back at the same time of day; this month and this year start at local midnight on their first day |
| `AnalyticsView.LastMonthIsPreviousMonth` | src/components/AnalyticsView.tsx:108-111 | last month runs from midnight on day 1 of the previous calendar month to midnight on its last day, also in January; it spans that month's number of days, and the next day is the 1st of this month |
| `AnalyticsView.PresetsAreOrdered` | src/components/AnalyticsView.tsx:92-120 | on a consistent clock, every preset starts no later than it ends |
| `AnalyticsView.ComputedDateRange` | src/components/AnalyticsView.tsx:125 | the custom short-cut gives the same range as the preset function |
| `AnalyticsView.GetFilteredTransactions` | src/components/AnalyticsView.tsx:124-132 | an in-order subsequence of the transactions; a transaction is in it iff it is in the computed range and passes the selected types and categories |
| `AnalyticsView.InitialSelectionFiltersOnlyByDate` | src/components/AnalyticsView.tsx:124-132 | with both types selected and no category, only the date range filters; custom with no bounds keeps every transaction |
| `AnalyticsView.ToggleType` | src/components/AnalyticsView.tsx:137-143 | the type's membership flips; every other type's membership is unchanged |
| `AnalyticsView.ToggleCategory` | src/components/AnalyticsView.tsx:145-151 | the category's membership flips; every other category's membership is unchanged |
| `AnalyticsView.PrepareBarChartData` | src/components/AnalyticsView.tsx:153-190 | no `from` gives no bars; otherwise bar k is day `DayOf(from) + k` and holds the income and expense booked on that day; there are as many bars as steps of `currentDate <= endDate` |
| `AnalyticsView.SeedBuckets` | src/components/AnalyticsView.tsx:163-174 | the stepping loop leaves one empty bucket per step, keyed by consecutive days from the day of `from`, in that order |
| `AnalyticsView.AddToBuckets` | src/components/AnalyticsView.tsx:176-187 | afterwards every bucket holds the income and the expense booked on its day; a transaction on no bucket's day is dropped; the keys are unchanged |
| `AnalyticsView.Buckets` | src/components/AnalyticsView.tsx:163-189 | the bars cover consecutive, strictly ascending days from the first; each holds its day's income and expense totals (0 when nothing is booked) |
| `AnalyticsView.BucketCount` | src/components/AnalyticsView.tsx:163-174 | the number of steps n: the last step is at or before the end and the next one is past it; no steps when the end is before `from` |
| `AnalyticsView.BucketCountDays` | src/components/AnalyticsView.tsx:166 | the steps cover every day from `from`'s day to the end's day, except the end's day when its time of day is earlier than `from`'s |
| `AnalyticsView.DayTotalIsFilteredSum` | src/components/AnalyticsView.tsx:176-187 | a bar's income (expense) is the sum over the transactions of that type booked on its day |
| `AnalyticsView.BucketsHoldRangeTotals` | src/components/AnalyticsView.tsx:176-189 | the bars' income and expense sums equal what is booked on the days they cover |
| `AnalyticsView.RangeTotalBounded` | src/components/AnalyticsView.tsx:176-187 | with positive amounts, what is booked in a day span lies between 0 and the type's total; it equals the total when every transaction of the type falls in the span |
| `AnalyticsView.BarChartTotals` | src/components/AnalyticsView.tsx:176-189 | with positive amounts, the bars' income and expense sums are at most the filtered totals (transactions without a bar are dropped); they equal them when every transaction falls on a charted day |
| `AnalyticsView.EndDate` | src/components/AnalyticsView.tsx:164 | `to || new Date()`: the range's end when it has one, otherwise the current instant |
| `AnalyticsView.PresetsChartEveryDay` | src/components/AnalyticsView.tsx:92-120 | on a consistent clock every preset gets one bar for each local day from its first day to its last, both included |
| `AnalyticsView.PresetBarsHoldFilteredTotals` | src/components/AnalyticsView.tsx:124-189 | under a preset, with positive amounts, the bars' income and expense sums equal the totals of the filtered transactions |
| `AnalyticsView.LastName` | src/components/AnalyticsView.tsx:199-207 | a slice's name is that of a seeded category with its id (re-seeding an id overwrites the name) |
| `AnalyticsView.PreparePieChartData` | src/components/AnalyticsView.tsx:192-221 | the result is `PieChart`: the positive slices of the categories of the type, over the transactions of the type, largest first |
| `AnalyticsView.SeedSlices` | src/components/AnalyticsView.tsx:199-207 | every seeded category id has a zero slice named after its last seed, and the key order is the order of first seeding |
| `AnalyticsView.AddToSlices` | src/components/AnalyticsView.tsx:209-216 | each slice's value becomes the total of its category over the transactions of the type; the keys and names are unchanged |
| `AnalyticsView.PieChartContents` | src/components/AnalyticsView.tsx:199-220 | the slices are sorted by value, descending; each has value > 0 equal to its category's total among the transactions of the type, and is named after a category of that type with its id; every category of the type with a positive total has a slice; no category appears twice |
| `AnalyticsView.PieShowsBookedCategories` | src/components/AnalyticsView.tsx:199-220 | with positive amounts, every category of the type on which some filtered transaction of the type is booked has a slice |
| `AnalyticsView.BookedTotalIsPositive` | src/components/TransactionForm.tsx:52 | with positive amounts, a category on which some transaction is booked has a positive total |
| `AnalyticsView.PieChartTiesKeepSeedOrder` | src/components/AnalyticsView.tsx:218-220 | slices with equal values keep the order in which their categories were seeded |
| `AnalyticsView.PieSound` | src/components/AnalyticsView.tsx:209-220 | every slice shown has a positive value and is the slice of a seeded category |
| `AnalyticsView.PieComplete` | src/components/AnalyticsView.tsx:209-220 | every seeded category with a positive total is shown |
| `AnalyticsView.PieDistinct` | src/components/AnalyticsView.tsx:199-220 | no category id is shown twice |
| `Selection.Toggle` | src/components/TransactionList.tsx:127-142 | the value's membership flips and others are unchanged; an absent value is appended; a present value is removed (every copy), leaving a shorter subsequence |
| `Selection.ToggleKeepsDistinct` | src/components/TransactionList.tsx:127-142 | toggling keeps a duplicate-free selection duplicate-free |
| `Selection.ToggleTwiceRestores` | src/components/AnalyticsView.tsx:137-151 | toggling an unselected value twice gives back exactly the same list |
| `Selection.ToggleTwiceSameSelection` | src/components/AnalyticsView.tsx:137-151 | toggling any value twice gives back the same selection as a set; a selected value moves to the end |
| `TransactionList.ToLower` | src/components/TransactionList.tsx:62 | lowercases letter by letter, keeping the length |
| `TransactionList.ToLowerIdempotent` | src/components/TransactionList.tsx:62-64 | lowering twice is lowering once |
| `TransactionList.Includes` | src/components/TransactionList.tsx:64 | true iff the term occurs in the text at some position |
| `TransactionList.Digits` | src/components/TransactionList.tsx:61 | a non-empty string of decimal digits |
| `TransactionList.DigitsRoundTrip` | src/components/TransactionList.tsx:61 | reading the digits back gives the number |
| `TransactionList.AmountString` | src/components/TransactionList.tsx:61 | a whole amount as decimal digits that read back as the amount; a negative amount gets a leading minus sign followed by the digits of its magnitude |
| `TransactionList.CategoryName` | src/components/TransactionList.tsx:57-59 | `category?.name || ''`: the name of the first category with the transaction's category id, or the empty string when there is none |
| `TransactionList.SearchText` | src/components/TransactionList.tsx:57-62 | the lowercased category name, the lowercased notes and the amount's digits, joined with single spaces |
| `TransactionList.SearchFindsEachField` | src/components/TransactionList.tsx:56-66 | a search for the category name, for the notes or for the amount's digits finds the transaction |
| `TransactionList.InitialViewShowsEverything` | src/components/TransactionList.tsx:43-50 | the initial state sorts newest first and shows every transaction |
| `TransactionList.FilteredList` | src/components/TransactionList.tsx:54-97 | an in-order subsequence; a transaction is in it iff it passes the search, type, category and date checks; with a search term, the lowered term occurs in the lowered `name notes amount` text |
| `TransactionList.ListFilterIsFilterTransactions` | src/components/TransactionList.tsx:54-97 | the view's filter equals `filterTransactions` with the same criteria, applied to the search matches |
| `TransactionList.EmptySearchIsFilterTransactions` | src/components/TransactionList.tsx:56-94 | without a search term the view shows exactly what `filterTransactions` keeps |
| `TransactionList.ListTotalsSplitShown` | src/components/TransactionList.tsx:100-106 | the shown income and expense totals (each the type total of the shown list) add up to the sum of the shown amounts; with positive amounts each lies between 0 and its type's total over the whole collection |
| `TransactionList.ShownTypeTotalBounded` | src/components/TransactionList.tsx:100-106 | with positive amounts, a shown type total lies between 0 and that type's total over the whole collection |
| `TransactionList.SortTransactions` | src/components/TransactionList.tsx:109-113 | a permutation of the filtered list; dates are non-increasing for descending order and non-decreasing for ascending |
| `TransactionList.SortKeepsTiesInOrder` | src/components/TransactionList.tsx:109-113 | transactions with equal dates keep their filtered-list order |
| `TransactionList.GroupByDay` | src/components/TransactionList.tsx:116-124 | the group keys are the local days in order of first appearance; each group holds exactly that day's transactions, in list order |
| `TransactionList.GroupsPartition` | src/components/TransactionList.tsx:116-124 | each group is an in-order subsequence of the sorted list, with only its own day; each transaction is in its day's group as often as in the list |
| `TransactionList.GroupDaysFollowTheSort` | src/components/TransactionList.tsx:109-124 | from a list sorted by date, the group days are strictly decreasing (descending) or strictly increasing (ascending) |
| `TransactionList.DedupeOfOrdered` | src/components/TransactionList.tsx:116-124 | removing repeats from an ordered sequence leaves it strictly ordered |
| `Calendar.DayOfMonotone` | src/components/TransactionList.tsx:119 | a later instant is on the same or a later local day |
| `TransactionList.ToggleTypeFilter` | src/components/TransactionList.tsx:127-133 | only the type filter changes, and the type's membership flips |
| `TransactionList.ToggleCategoryFilter` | src/components/TransactionList.tsx:136-142 | only the category filter changes, and the category's membership flips |
| `TransactionList.ResetFilters` | src/components/TransactionList.tsx:145-150 | search, both filters and both bounds are back to their initial values; the sort order is kept |
| `TransactionList.ResetShowsEverything` | src/components/TransactionList.tsx:145-150 | after a reset the view shows every transaction, in order |
| `TransactionList.ToggleSortOrder` | src/components/TransactionList.tsx:153-155 | the sort order changes and nothing else does |
| `TransactionList.ToggleSortOrderTwice` | src/components/TransactionList.tsx:153-155 | toggling twice restores the state |
| `IndexPage.ReplaceById` | src/pages/Index.tsx:62-64 | same length; each element with the saved id becomes the saved transaction and the others stay |
| `IndexPage.SaveTransaction` | src/pages/Index.tsx:57-73 | an existing id: same length, every element with the id replaced, all others in place; a new id: the saved transaction appended; either way it is in the result and is the only value with its id |
| `IndexPage.DeleteTransaction` | src/pages/Index.tsx:76-81 | an in-order subsequence; a transaction is in it iff it was there and has another id |
| `IndexPage.DeleteUndoesAdd` | src/pages/Index.tsx:66-77 | adding a transaction with a new id and then deleting that id gives back the original list |
| `IndexPage.DeleteAfterSave` | src/pages/Index.tsx:57-77 | deleting an id after saving under it is the same as deleting it straight away |
| `IndexPage.ReplacedAreDeleted` | src/pages/Index.tsx:62-77 | after an edit, deleting the edited id gives the same list as deleting it before the edit |
| `IndexPage.SaveIsIdempotent` | src/pages/Index.tsx:57-69 | saving the same transaction twice is saving it once |
| `IndexPage.SaveKeepsIdsUnique` | src/pages/Index.tsx:57-69 | saving keeps ids unique |
| `IndexPage.DeleteKeepsIdsUnique` | src/pages/Index.tsx:76-77 | deleting keeps ids unique |
| `IndexPage.InitialCategories` | src/pages/Index.tsx:33-36 | an empty loaded list becomes the built-in categories; a non-empty one is kept |
| `IndexPage.CategoriesNeverStartEmpty` | src/pages/Index.tsx:25-36 | whatever storage holds, the page starts with at least one category |
| `JsArray.Filter` | src/utils/transactionUtils.ts:77 | no longer than its input; `x` is in the result iff it is in the input and passes |
| `JsArray.FilterIsSubseq` | src/utils/transactionUtils.ts:77 | a filter's result is an in-order subsequence of its input |
| `JsArray.FilterCount` | src/components/TransactionList.tsx:54 | a kept value occurs in the result as often as in the input, and a dropped one never |
| `JsArray.FilterFuse` | src/components/TransactionList.tsx:54-97 | filtering twice equals filtering once by the conjunction |
| `JsArray.IndexOf` | src/utils/transactionUtils.ts:132 | `findIndex`: -1 iff absent, otherwise the first position |
| `JsArray.Dedupe` | src/components/AnalyticsView.tsx:199-207 | the first occurrences of the input, each once, with the same members |
| `JsArray.DedupeKeepsFirstOccurrenceOrder` | src/components/AnalyticsView.tsx:199-207 | the distinct values come in the order of their first occurrences in the input |
| `JsArray.SortBy` | src/components/TransactionList.tsx:109-113 | sorted by the key, ascending or descending, and a permutation of the input |
| `JsArray.SortIsStable` | src/components/AnalyticsView.tsx:220 | the elements with any one key keep their relative order |
| `JsArray.StableSortIsUnique` | src/components/AnalyticsView.tsx:220 | any sorted permutation that keeps each key's order is `SortBy`'s result, so a stable comparator sort and the model agree |
| `JsMap.OrderedMap.Set` | src/components/AnalyticsView.tsx:168 | `Map.set`: the value is stored; a new key goes last and an existing key keeps its place |
| `JsMap.OrderedMap.Get` | src/components/AnalyticsView.tsx:178 | `Map.get`: present iff the key is in the map, and then its value |
| `JsMap.OrderedMap.Values` | src/components/AnalyticsView.tsx:189 | `Array.from(m.values())`: the values in key order |
| `Calendar.EndOfDay` | src/utils/transactionUtils.ts:87-88 | `setHours(23, 59, 59, 999)`: on the same local day, not earlier, and the next millisecond is the next day |
| `Calendar.DayOf` | src/components/AnalyticsView.tsx:167 | the local day of an instant: the day whose local midnight is at or before the instant and whose next midnight is after it |
| `Calendar.LocalDate` | src/components/AnalyticsView.tsx:106-113 | `new Date(year, month, date)`: local midnight of the day `MakeDay` names |
| `Calendar.AddDays` | src/components/AnalyticsView.tsx:95 | `setDate(getDate() + n)`: n local days later, at the same time of day |
| `Calendar.TimeOfDay` | src/components/AnalyticsView.tsx:106 | the time since local midnight, below one day, which with the day gives back the instant |
| `Calendar.YearLength` | src/components/AnalyticsView.tsx:113 | consecutive years start a year's length (365 or 366 days) apart |
| `Calendar.MonthLength` | src/components/AnalyticsView.tsx:109-110 | day 1 of month m + 1 is month m's length after day 1 of month m, also from December into January |

## Left out

- Rendering, charts and popovers are not modelled. They are pure user interface: the JSX of both views, the recharts wiring and colour cycling.
- `formatCurrency` is not modelled. It wraps `Intl.NumberFormat`.
- Time zones and daylight saving time are not modelled. Local time is a fixed offset from UTC (eight hours, a modelling choice), so every local day lasts 86 400 000 ms, and a `setDate` step never crosses a DST change.
- The parsing of the ISO date string is not modelled. A transaction's date is the instant it parses to.
- date-fns `format` is not modelled. A day key is the day number it renders.
- Browser storage and JSON are not modelled. They are I/O. Their outcome is an `Option` parameter, and the writes (`saveTransactions`, `saveCategories`) are left out.
- `generateId` is not modelled. It depends on `Date.now()` and `Math.random()`.
- The clock is a `Clock` parameter, not a read of `new Date()`.
- `Calendar.LocalDate`: JavaScript's `new Date(year, month, date)` reads a year from 0 to 99 as 1900 + year; the model takes the year as given, which agrees for every year from 100 on.
- Authentication, the form and its validation, and the presentational components are not modelled. Only one guarantee of the form is used: positive amounts, as the hypothesis `PositiveAmounts`.
- React state updates, effects and toasts are left out. Each handler is modelled by the value it computes.
- Amounts are whole numbers, so fractional amounts and IEEE-754 floating-point summation are not modelled.
- Types have exactly two values. The source's `else` branch, which counts any non-income type as expense, is modelled as `Expense`.
- `TransactionList.AmountString`: renders a whole amount in decimal, not JavaScript's number-to-string of a fractional amount.
- `TransactionList.ToLower`: lowercases ASCII letters only; JavaScript's `toLowerCase` also lowercases non-ASCII letters.
- In-place mutation is modelled as value updates:
  - the bucket and slice objects the source mutates in place (`existing.income +=`, `existing.value +=`) are values in the map, and an update is a `Set` of the changed value;
  - `categorySummary[i].amount +=` is a sequence update.
  The source never aliases these objects, so nothing is lost.
- `AnalyticsView.PrepareBarChartData`: the stepping loop compares instants, not days. When `from` has a later time of day than the end, the end's own day gets no bar; `BucketCountDays` states this exactly. The presets always start at the end's time of day or at midnight, so they chart every day of their range (`PresetsChartEveryDay`).
- `AnalyticsView.PresetsAreOrdered`: a custom range carries no such promise, because the picked range may be empty. In that case `BucketCount` is 0 and the chart is empty.
