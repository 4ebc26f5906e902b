/**
 * The computations of the analytics view (src/components/AnalyticsView.tsx):
 * the date range of the selected preset, the filtered transactions, the
 * toggles of the filter panel, the daily income/expense buckets of the bar
 * chart and the per-category slices of the two pie charts.
 */
module AnalyticsView {
  import opened Wrappers
  import opened JsArray
  import opened JsMap
  import opened Types
  import opened Calendar
  import opened TransactionUtils
  import opened Selection

  // -------------------------------------------------------------- date range

  /**
   * The `timeRange` selector. The menu offers the first seven; `Unlisted`
   * stands for any other string, which the code treats like the 30-day preset.
   */
  datatype TimeRange = Last7Days | Last30Days | Last90Days | ThisMonth | LastMonth | ThisYear | Custom | Unlisted

  /** The length of a rolling preset, in days (the unlisted case behaves like 30 days). */
  function RollingDays(timeRange: TimeRange): int
    requires timeRange in {Last7Days, Last30Days, Last90Days, Unlisted}
  {
    match timeRange
    case Last7Days => 7
    case Last90Days => 90
    case _ => 30
  }

  /**
   * `getDateRangeFromTimeRange`. The rolling presets go back the given number
   * of days from now, at the same time of day; the calendar presets start at
   * local midnight on the first day of this month, last month or this year;
   * last month ends at midnight on its last day, every other preset ends now;
   * `Custom` yields the picked range.
   */
  function DateRangeFromTimeRange(timeRange: TimeRange, dateRange: DateRange, clock: Clock): (r: DateRange)
    ensures timeRange == Custom ==> r == dateRange
    ensures timeRange != Custom ==> r.from.Some? && r.to.Some?
    ensures timeRange !in {Custom, LastMonth} ==> r.to == Some(clock.now)
    ensures timeRange in {Last7Days, Last30Days, Last90Days, Unlisted} ==>
              && DayOf(r.from.value) == DayOf(clock.now) - RollingDays(timeRange)
              && TimeOfDay(r.from.value) == TimeOfDay(clock.now)
    ensures timeRange == ThisMonth ==>
              DayOf(r.from.value) == MakeDay(clock.year, clock.month, 1) && TimeOfDay(r.from.value) == 0
    ensures timeRange == ThisYear ==>
              DayOf(r.from.value) == DayFromYear(clock.year) && TimeOfDay(r.from.value) == 0
  {
    var today := clock.now;
    match timeRange
    case Last7Days => DateRange(Some(AddDays(today, -7)), Some(today))
    case Last30Days => DateRange(Some(AddDays(today, -30)), Some(today))
    case Last90Days => DateRange(Some(AddDays(today, -90)), Some(today))
    case ThisMonth => DateRange(Some(LocalDate(clock.year, clock.month, 1)), Some(today))
    case LastMonth => DateRange(Some(LocalDate(clock.year, clock.month - 1, 1)), Some(LocalDate(clock.year, clock.month, 0)))
    case ThisYear =>
      assert MakeDay(clock.year, 0, 1) == DayFromYear(clock.year);
      DateRange(Some(LocalDate(clock.year, 0, 1)), Some(today))
    case Custom => dateRange
    case Unlisted => DateRange(Some(AddDays(today, -30)), Some(today))
  }

  /** The year and (0-based) month before the clock's month. */
  function PreviousMonth(clock: Clock): (int, int)
  {
    if clock.month == 0 then (clock.year - 1, 11) else (clock.year, clock.month - 1)
  }

  /**
   * The last-month preset covers exactly the previous calendar month, also
   * in January: it starts at midnight on its first day, ends at midnight on
   * its last day, spans as many days as that month has, and the day after its
   * end is the first of the current month.
   */
  lemma LastMonthIsPreviousMonth(dateRange: DateRange, clock: Clock)
    requires 0 <= clock.month < 12
    ensures var r := DateRangeFromTimeRange(LastMonth, dateRange, clock);
            var (year, month) := PreviousMonth(clock);
            && DayOf(r.from.value) == MakeDay(year, month, 1)
            && TimeOfDay(r.from.value) == 0
            && TimeOfDay(r.to.value) == 0
            && DayOf(r.to.value) - DayOf(r.from.value) + 1 == DaysInMonth(year, month)
            && DayOf(r.to.value) + 1 == MakeDay(clock.year, clock.month, 1)
  {
    var (year, month) := PreviousMonth(clock);
    var r := DateRangeFromTimeRange(LastMonth, dateRange, clock);
    assert r.from.value == LocalDate(clock.year, clock.month - 1, 1);
    assert r.to.value == LocalDate(clock.year, clock.month, 0);
    PreviousMonthDays(clock);
    MonthLength(year, month);
  }

  /** `month - 1` with the carry into the year names the day numbers of the previous month. */
  lemma PreviousMonthDays(clock: Clock)
    requires 0 <= clock.month < 12
    ensures var (year, month) := PreviousMonth(clock);
            && 0 <= month < 12
            && MakeDay(clock.year, clock.month - 1, 1) == MakeDay(year, month, 1)
            && MakeDay(year, month + 1, 1) == MakeDay(clock.year, clock.month, 1)
            && MakeDay(clock.year, clock.month, 0) == MakeDay(clock.year, clock.month, 1) - 1
  {
    assert clock.month / 12 == 0 && clock.month % 12 == clock.month;
    if clock.month == 0 {
      assert (clock.month - 1) / 12 == -1 && (clock.month - 1) % 12 == 11;
      assert 12 / 12 == 1 && 12 % 12 == 0;
    } else {
      assert (clock.month - 1) / 12 == 0 && (clock.month - 1) % 12 == clock.month - 1;
    }
  }

  /**
   * On a consistent clock every preset starts no later than it ends, so the
   * bar chart of a preset is never empty.
   */
  lemma PresetsAreOrdered(timeRange: TimeRange, dateRange: DateRange, clock: Clock)
    requires Consistent(clock) && timeRange != Custom
    ensures var r := DateRangeFromTimeRange(timeRange, dateRange, clock);
            r.from.value <= r.to.value
  {
    var r := DateRangeFromTimeRange(timeRange, dateRange, clock);
    if timeRange in {Last7Days, Last30Days, Last90Days, Unlisted} {
      SameDayAndTime(r.from.value + RollingDays(timeRange) * MsPerDay, clock.now);
    } else if timeRange == ThisMonth {
      EarlierDayIsEarlier(r.from.value, clock.now);
    } else if timeRange == LastMonth {
      LastMonthIsPreviousMonth(dateRange, clock);
    } else {
      ThisYearIsOrdered(dateRange, clock);
    }
  }

  lemma ThisYearIsOrdered(dateRange: DateRange, clock: Clock)
    requires Consistent(clock)
    ensures var r := DateRangeFromTimeRange(ThisYear, dateRange, clock);
            r.from.value <= r.to.value
  {
    var from := DateRangeFromTimeRange(ThisYear, dateRange, clock).from.value;
    assert clock.month / 12 == 0 && clock.month % 12 == clock.month;
    DaysBeforeMonthBounds(clock.year, clock.month);
    assert DayOf(from) <= DayOf(clock.now);
    EarlierDayIsEarlier(from, clock.now);
  }

  /** `timeRange === 'custom' ? dateRange : getDateRangeFromTimeRange()`. */
  function ComputedDateRange(timeRange: TimeRange, dateRange: DateRange, clock: Clock): (r: DateRange)
    ensures r == DateRangeFromTimeRange(timeRange, dateRange, clock)
  {
    if timeRange == Custom then dateRange else DateRangeFromTimeRange(timeRange, dateRange, clock)
  }

  /**
   * `getFilteredTransactions`: the filter engine applied to the computed
   * range and the selected types and categories.
   */
  function GetFilteredTransactions(
    transactions: seq<Transaction>, timeRange: TimeRange, dateRange: DateRange,
    selectedTypes: seq<TransactionType>, selectedCategories: seq<string>, clock: Clock): (r: seq<Transaction>)
    ensures IsSubseq(r, transactions)
    ensures forall t :: t in r <==>
              && t in transactions
              && InDateRange(t.date, DateRangeFromTimeRange(timeRange, dateRange, clock))
              && (|selectedTypes| == 0 || t.kind in selectedTypes)
              && (|selectedCategories| == 0 || t.categoryId in selectedCategories)
  {
    FilterTransactions(transactions,
      FilterOptions(ComputedDateRange(timeRange, dateRange, clock), selectedTypes, selectedCategories))
  }

  /**
   * With the initial selection (both types, no category) only the date range
   * filters, and the custom preset with no bounds keeps every transaction.
   */
  lemma InitialSelectionFiltersOnlyByDate(transactions: seq<Transaction>, timeRange: TimeRange, dateRange: DateRange, clock: Clock)
    ensures forall t :: t in GetFilteredTransactions(transactions, timeRange, dateRange, [Income, Expense], [], clock) <==>
              t in transactions && InDateRange(t.date, DateRangeFromTimeRange(timeRange, dateRange, clock))
    ensures GetFilteredTransactions(transactions, Custom, DateRange(None, None), [Income, Expense], [], clock) == transactions
  {
    forall t: Transaction
      ensures t.kind in [Income, Expense]
    {
      assert t.kind == Income || t.kind == Expense;
    }
    FilterKeepsAll(MatchesOptions(FilterOptions(DateRange(None, None), [Income, Expense], [])), transactions);
  }

  /** `toggleType`. */
  function ToggleType(selectedTypes: seq<TransactionType>, kind: TransactionType): (r: seq<TransactionType>)
    ensures kind in r <==> kind !in selectedTypes
    ensures forall k :: k != kind ==> (k in r <==> k in selectedTypes)
  {
    Toggle(selectedTypes, kind)
  }

  /** `toggleCategory`. */
  function ToggleCategory(selectedCategories: seq<string>, categoryId: string): (r: seq<string>)
    ensures categoryId in r <==> categoryId !in selectedCategories
    ensures forall id :: id != categoryId ==> (id in r <==> id in selectedCategories)
  {
    Toggle(selectedCategories, categoryId)
  }

  // --------------------------------------------------------------- bar chart

  /** One bar of the chart: a local day and the income and expense booked on it. */
  datatype DailyBucket = DailyBucket(day: int, income: int, expense: int)

  function OnDayOfType(day: int, kind: TransactionType): Transaction -> bool
  {
    (t: Transaction) => DayOf(t.date) == day && t.kind == kind
  }

  /** The amount of one type booked on one local day, summed in list order. */
  function DayTotal(transactions: seq<Transaction>, day: int, kind: TransactionType): int
  {
    if transactions == [] then 0
    else
      var last := transactions[|transactions| - 1];
      DayTotal(transactions[..|transactions| - 1], day, kind) + (if OnDayOfType(day, kind)(last) then last.amount else 0)
  }

  /** A day's total is the sum over the transactions of that type booked on that day. */
  lemma {:induction false} DayTotalIsFilteredSum(transactions: seq<Transaction>, day: int, kind: TransactionType)
    ensures DayTotal(transactions, day, kind) == SumAmounts(Filter(OnDayOfType(day, kind), transactions))
    decreases |transactions|
  {
    if transactions != [] {
      var init, last := transactions[..|transactions| - 1], transactions[|transactions| - 1];
      assert transactions == init + [last];
      DayTotalIsFilteredSum(init, day, kind);
      SumFilterSnoc(OnDayOfType(day, kind), init, last);
    }
  }

  /** The bar of day `d` after the transactions `done` have been added. */
  function BucketOf(done: seq<Transaction>, d: int): DailyBucket
  {
    DailyBucket(d, DayTotal(done, d, Income), DayTotal(done, d, Expense))
  }

  /**
   * How many times `currentDate <= endDate` holds while `currentDate` starts
   * at `from` and steps one day at a time.
   */
  function BucketCount(from: int, end: int): (n: int)
    ensures n >= 0
    ensures from <= end ==> from + (n - 1) * MsPerDay <= end < from + n * MsPerDay
    ensures end < from ==> n == 0
  {
    if from <= end then (end - from) / MsPerDay + 1 else 0
  }

  /** The bars for `n` consecutive days starting with day `first`. */
  function Buckets(transactions: seq<Transaction>, first: int, n: nat): (r: seq<DailyBucket>)
    ensures |r| == n
    ensures forall k :: 0 <= k < n ==>
              r[k] == BucketOf(transactions, first + k)
  {
    if n == 0 then []
    else Buckets(transactions, first, n - 1)
         + [BucketOf(transactions, first + n - 1)]
  }

  /** The end of the stepped range: `to`, or now when `to` is absent. */
  function EndDate(range: DateRange, now: int): (end: int)
    ensures range.to.Some? ==> end == range.to.value
    ensures range.to.None? ==> end == now
  {
    if range.to.Some? then range.to.value else now
  }

  /**
   * `prepareBarChartData`: nothing when the range has no start; otherwise one
   * bucket per day stepped from `from` while not past the end, in ascending
   * day order, each holding the day's income and expense among `filtered`.
   */
  method PrepareBarChartData(filtered: seq<Transaction>, timeRange: TimeRange, dateRange: DateRange, clock: Clock)
    returns (data: seq<DailyBucket>)
    ensures var range := ComputedDateRange(timeRange, dateRange, clock);
            range.from.None? ==> data == []
    ensures var range := ComputedDateRange(timeRange, dateRange, clock);
            range.from.Some? ==>
              data == Buckets(filtered, DayOf(range.from.value), BucketCount(range.from.value, EndDate(range, clock.now)))
  {
    var range := ComputedDateRange(timeRange, dateRange, clock);
    if range.from.None? {
      return [];
    }

    var endDate := if range.to.Some? then range.to.value else clock.now;
    var dateMap := SeedBuckets(range.from.value, endDate);
    ghost var first, n := DayOf(range.from.value), BucketCount(range.from.value, endDate);
    SeededBucketsAreEmpty(dateMap, first, n, filtered);
    dateMap := AddToBuckets(dateMap, first, n, filtered);

    data := dateMap.Values();
    BucketsAreTheChart(dateMap, filtered, first, n, data);
  }

  /** The seeding `while` loop: one empty bucket per day stepped from `from` while `currentDate <= endDate`. */
  method SeedBuckets(from: int, endDate: int) returns (dateMap: OrderedMap<int, DailyBucket>)
    ensures dateMap.Valid()
    ensures SeededDays(dateMap, DayOf(from), BucketCount(from, endDate))
  {
    dateMap := Empty<int, DailyBucket>();
    var currentDate := from;
    ghost var first := DayOf(currentDate);
    ghost var n: nat := 0;

    while currentDate <= endDate
      invariant currentDate == from + n * MsPerDay
      invariant DayOf(currentDate) == first + n
      invariant n == 0 || currentDate - MsPerDay <= endDate
      invariant dateMap.Valid()
      invariant SeededDays(dateMap, first, n)
      decreases endDate - currentDate
    {
      var dateStr := DayOf(currentDate);
      dateMap := dateMap.Set(dateStr, DailyBucket(dateStr, 0, 0));
      currentDate := AddDays(currentDate, 1);
      n := n + 1;
    }
    assert n == BucketCount(from, endDate);
  }

  /** The accumulating `forEach`: each transaction's amount goes to the bucket of its day, if there is one. */
  method AddToBuckets(seeded: OrderedMap<int, DailyBucket>, ghost first: int, ghost n: int, filtered: seq<Transaction>)
    returns (dateMap: OrderedMap<int, DailyBucket>)
    requires seeded.Valid()
    requires BucketsHoldDayTotals(seeded, first, n, filtered[..0])
    ensures dateMap.Valid()
    ensures BucketsHoldDayTotals(dateMap, first, n, filtered)
  {
    dateMap := seeded;
    for i := 0 to |filtered|
      invariant dateMap.Valid()
      invariant BucketsHoldDayTotals(dateMap, first, n, filtered[..i])
    {
      var transaction := filtered[i];
      var dateStr := DayOf(transaction.date);
      var existing := dateMap.Get(dateStr);
      if existing.Some? {
        var updated;
        if transaction.kind == Income {
          updated := existing.value.(income := existing.value.income + transaction.amount);
        } else {
          updated := existing.value.(expense := existing.value.expense + transaction.amount);
        }
        BucketedStep(dateMap, first, n, filtered, i, updated);
        dateMap := dateMap.Set(dateStr, updated);
      } else {
        UnbucketedStep(dateMap, first, n, filtered, i);
      }
    }
    assert filtered[..|filtered|] == filtered;
  }

  /** After the first loop: keys `first`, ..., `first + n - 1` in order, each with an empty bucket. */
  ghost predicate SeededDays(dateMap: OrderedMap<int, DailyBucket>, first: int, n: int)
  {
    && |dateMap.keys| == n
    && (forall k :: 0 <= k < n ==> dateMap.keys[k] == first + k)
    && (forall d :: d in dateMap.entries ==> dateMap.entries[d] == DailyBucket(d, 0, 0))
  }

  /** During the second loop: the same keys, each bucket holding the totals of `done`. */
  ghost predicate BucketsHoldDayTotals(dateMap: OrderedMap<int, DailyBucket>, first: int, n: int, done: seq<Transaction>)
  {
    && |dateMap.keys| == n
    && (forall k :: 0 <= k < n ==> dateMap.keys[k] == first + k)
    && (forall d :: d in dateMap.entries ==> dateMap.entries[d] == BucketOf(done, d))
  }

  lemma SeededBucketsAreEmpty(dateMap: OrderedMap<int, DailyBucket>, first: int, n: int, filtered: seq<Transaction>)
    requires SeededDays(dateMap, first, n)
    ensures BucketsHoldDayTotals(dateMap, first, n, filtered[..0])
  {
    assert filtered[..0] == [];
  }

  lemma DayTotalStep(filtered: seq<Transaction>, i: int, day: int, kind: TransactionType)
    requires 0 <= i < |filtered|
    ensures DayTotal(filtered[..i + 1], day, kind)
         == DayTotal(filtered[..i], day, kind)
            + (if DayOf(filtered[i].date) == day && filtered[i].kind == kind then filtered[i].amount else 0)
  {
    assert filtered[..i + 1][..i] == filtered[..i];
  }

  /** One step of the second loop, for a transaction whose day has no bucket: it is dropped. */
  lemma UnbucketedStep(dateMap: OrderedMap<int, DailyBucket>, first: int, n: int, filtered: seq<Transaction>, i: int)
    requires 0 <= i < |filtered|
    requires BucketsHoldDayTotals(dateMap, first, n, filtered[..i])
    requires DayOf(filtered[i].date) !in dateMap.entries
    ensures BucketsHoldDayTotals(dateMap, first, n, filtered[..i + 1])
  {
    forall d | d in dateMap.entries
      ensures dateMap.entries[d] == BucketOf(filtered[..i + 1], d)
    {
      DayTotalStep(filtered, i, d, Income);
      DayTotalStep(filtered, i, d, Expense);
    }
  }

  /** One step of the second loop, for a transaction whose day has a bucket: its amount goes to that bucket. */
  lemma BucketedStep(dateMap: OrderedMap<int, DailyBucket>, first: int, n: int, filtered: seq<Transaction>, i: int,
                     updated: DailyBucket)
    requires 0 <= i < |filtered|
    requires dateMap.Valid()
    requires BucketsHoldDayTotals(dateMap, first, n, filtered[..i])
    requires DayOf(filtered[i].date) in dateMap.entries
    requires var cur := dateMap.entries[DayOf(filtered[i].date)];
             updated == if filtered[i].kind == Income then cur.(income := cur.income + filtered[i].amount)
                        else cur.(expense := cur.expense + filtered[i].amount)
    ensures BucketsHoldDayTotals(dateMap.Set(DayOf(filtered[i].date), updated), first, n, filtered[..i + 1])
  {
    var m := dateMap.Set(DayOf(filtered[i].date), updated);
    forall d | d in m.entries
      ensures m.entries[d] == BucketOf(filtered[..i + 1], d)
    {
      DayTotalStep(filtered, i, d, Income);
      DayTotalStep(filtered, i, d, Expense);
    }
  }

  /** The values of the final map, in key order, are the buckets of the chart. */
  lemma BucketsAreTheChart(dateMap: OrderedMap<int, DailyBucket>, filtered: seq<Transaction>, first: int, n: nat, data: seq<DailyBucket>)
    requires dateMap.Valid()
    requires BucketsHoldDayTotals(dateMap, first, n, filtered)
    requires data == dateMap.Values()
    ensures data == Buckets(filtered, first, n)
  {
    var chart := Buckets(filtered, first, n);
    forall k | 0 <= k < n
      ensures data[k] == chart[k]
    {
      ChartDay(dateMap, filtered, first, n, k);
    }
    Extensionality(data, chart);
  }

  /** Value `k` of the final map is the bucket of day `first + k`. */
  lemma ChartDay(dateMap: OrderedMap<int, DailyBucket>, filtered: seq<Transaction>, first: int, n: nat, k: int)
    requires dateMap.Valid()
    requires BucketsHoldDayTotals(dateMap, first, n, filtered)
    requires 0 <= k < n
    ensures dateMap.Values()[k] == BucketOf(filtered, first + k)
  {
    var d := dateMap.keys[k];
    assert d == first + k;
    assert d in dateMap.keys;
    assert d in dateMap.entries;
    assert dateMap.entries[d] == BucketOf(filtered, d);
    assert dateMap.Values()[k] == dateMap.entries[d];
  }

  /**
   * The stepping compares instants, not days: it covers every day from the
   * day of `from` to the day of the end, except the end's own day when that
   * day's time of day is earlier than the time of day of `from`.
   */
  lemma BucketCountDays(from: int, end: int)
    requires from <= end
    ensures BucketCount(from, end)
         == DayOf(end) - DayOf(from) + (if TimeOfDay(from) <= TimeOfDay(end) then 1 else 0)
  {
    var days, delta := DayOf(end) - DayOf(from), TimeOfDay(end) - TimeOfDay(from);
    assert end - from == days * MsPerDay + delta;
    var n := BucketCount(from, end);
    assert (n - 1) * MsPerDay <= days * MsPerDay + delta < n * MsPerDay;
    if delta >= 0 {
      assert (n - 1) * MsPerDay < (days + 1) * MsPerDay && days * MsPerDay < n * MsPerDay;
    } else {
      assert (n - 1) * MsPerDay < days * MsPerDay && (days - 1) * MsPerDay < n * MsPerDay;
    }
  }

  /** The amount of one type booked on the `n` days from day `first` on. */
  function RangeTotal(transactions: seq<Transaction>, first: int, n: int, kind: TransactionType): int
  {
    if transactions == [] then 0
    else
      var last := transactions[|transactions| - 1];
      RangeTotal(transactions[..|transactions| - 1], first, n, kind)
      + (if first <= DayOf(last.date) < first + n && last.kind == kind then last.amount else 0)
  }

  lemma {:induction false} RangeTotalGrows(transactions: seq<Transaction>, first: int, n: int, kind: TransactionType)
    requires n >= 0
    ensures RangeTotal(transactions, first, n + 1, kind)
         == RangeTotal(transactions, first, n, kind) + DayTotal(transactions, first + n, kind)
    decreases |transactions|
  {
    if transactions != [] {
      RangeTotalGrows(transactions[..|transactions| - 1], first, n, kind);
    }
  }

  function SumIncome(buckets: seq<DailyBucket>): int
  {
    if buckets == [] then 0 else SumIncome(buckets[..|buckets| - 1]) + buckets[|buckets| - 1].income
  }

  function SumExpense(buckets: seq<DailyBucket>): int
  {
    if buckets == [] then 0 else SumExpense(buckets[..|buckets| - 1]) + buckets[|buckets| - 1].expense
  }

  /** The bars together hold exactly what was booked on the days they cover. */
  lemma {:induction false} BucketsHoldRangeTotals(transactions: seq<Transaction>, first: int, n: nat)
    ensures SumIncome(Buckets(transactions, first, n)) == RangeTotal(transactions, first, n, Income)
    ensures SumExpense(Buckets(transactions, first, n)) == RangeTotal(transactions, first, n, Expense)
  {
    if n == 0 {
      RangeTotalIsEmpty(transactions, first, Income);
      RangeTotalIsEmpty(transactions, first, Expense);
    } else {
      var b := Buckets(transactions, first, n);
      var prev, last := Buckets(transactions, first, n - 1), BucketOf(transactions, first + (n - 1));
      assert b[..n - 1] == prev;
      assert SumIncome(b) == SumIncome(prev) + last.income;
      assert SumExpense(b) == SumExpense(prev) + last.expense;
      BucketsHoldRangeTotals(transactions, first, n - 1);
      RangeTotalGrows(transactions, first, n - 1, Income);
      RangeTotalGrows(transactions, first, n - 1, Expense);
    }
  }

  lemma {:induction false} RangeTotalIsEmpty(transactions: seq<Transaction>, first: int, kind: TransactionType)
    ensures RangeTotal(transactions, first, 0, kind) == 0
    decreases |transactions|
  {
    if transactions != [] {
      RangeTotalIsEmpty(transactions[..|transactions| - 1], first, kind);
    }
  }

  /**
   * With positive amounts, the days' totals never exceed the total of that
   * type, and reach it when every transaction of the type falls on a covered day.
   */
  lemma {:induction false} RangeTotalBounded(transactions: seq<Transaction>, first: int, n: int, kind: TransactionType)
    requires PositiveAmounts(transactions)
    ensures 0 <= RangeTotal(transactions, first, n, kind) <= TypeTotal(transactions, kind)
    ensures (forall t :: t in transactions && t.kind == kind ==> first <= DayOf(t.date) < first + n) ==>
              RangeTotal(transactions, first, n, kind) == TypeTotal(transactions, kind)
    decreases |transactions|
  {
    if transactions != [] {
      var init, last := transactions[..|transactions| - 1], transactions[|transactions| - 1];
      assert transactions == init + [last];
      assert forall t :: t in init ==> t in transactions;
      RangeTotalBounded(init, first, n, kind);
      SumFilterSnoc(HasType(kind), init, last);
      assert last in transactions;
    }
  }

  /**
   * The bar chart drops nothing it has a day for and adds nothing: with
   * positive amounts its income and expense sums are at most the filtered
   * totals, and equal to them when every transaction falls on a charted day.
   */
  lemma BarChartTotals(filtered: seq<Transaction>, range: DateRange, now: int, data: seq<DailyBucket>)
    requires PositiveAmounts(filtered)
    requires range.from.Some?
    requires data == Buckets(filtered, DayOf(range.from.value), BucketCount(range.from.value, EndDate(range, now)))
    ensures 0 <= SumIncome(data) <= TypeTotal(filtered, Income)
    ensures 0 <= SumExpense(data) <= TypeTotal(filtered, Expense)
    ensures var first, n := DayOf(range.from.value), BucketCount(range.from.value, EndDate(range, now));
            (forall t :: t in filtered ==> first <= DayOf(t.date) < first + n) ==>
              SumIncome(data) == TypeTotal(filtered, Income) && SumExpense(data) == TypeTotal(filtered, Expense)
  {
    var first, n := DayOf(range.from.value), BucketCount(range.from.value, EndDate(range, now));
    BucketsHoldRangeTotals(filtered, first, n);
    RangeTotalBounded(filtered, first, n, Income);
    RangeTotalBounded(filtered, first, n, Expense);
  }

  /**
   * On a consistent clock a preset's bar chart has one bar for every local
   * day from its first day to its last, both included.
   */
  lemma PresetsChartEveryDay(timeRange: TimeRange, dateRange: DateRange, clock: Clock)
    requires Consistent(clock) && timeRange != Custom
    ensures var r := DateRangeFromTimeRange(timeRange, dateRange, clock);
            BucketCount(r.from.value, EndDate(r, clock.now)) == DayOf(r.to.value) - DayOf(r.from.value) + 1
  {
    var r := DateRangeFromTimeRange(timeRange, dateRange, clock);
    var from, to := r.from.value, r.to.value;
    PresetsAreOrdered(timeRange, dateRange, clock);
    if timeRange == LastMonth {
      LastMonthIsPreviousMonth(dateRange, clock);
    }
    assert TimeOfDay(from) <= TimeOfDay(to);
    BucketCountDays(from, to);
  }

  /**
   * Under a preset the bar chart accounts for every filtered transaction: with
   * positive amounts its income and expense sums are the filtered totals.
   */
  lemma PresetBarsHoldFilteredTotals(
    transactions: seq<Transaction>, timeRange: TimeRange, dateRange: DateRange,
    selectedTypes: seq<TransactionType>, selectedCategories: seq<string>, clock: Clock)
    requires Consistent(clock) && timeRange != Custom
    requires PositiveAmounts(transactions)
    ensures var r := DateRangeFromTimeRange(timeRange, dateRange, clock);
            var filtered := GetFilteredTransactions(transactions, timeRange, dateRange, selectedTypes, selectedCategories, clock);
            var data := Buckets(filtered, DayOf(r.from.value), BucketCount(r.from.value, EndDate(r, clock.now)));
            SumIncome(data) == TypeTotal(filtered, Income) && SumExpense(data) == TypeTotal(filtered, Expense)
  {
    var r := DateRangeFromTimeRange(timeRange, dateRange, clock);
    var filtered := GetFilteredTransactions(transactions, timeRange, dateRange, selectedTypes, selectedCategories, clock);
    var first, n := DayOf(r.from.value), BucketCount(r.from.value, EndDate(r, clock.now));
    PresetsChartEveryDay(timeRange, dateRange, clock);
    forall t | t in filtered
      ensures first <= DayOf(t.date) < first + n
    {
      assert InDateRange(t.date, r);
      DayOfMonotone(r.from.value, t.date);
      DayOfMonotone(t.date, EndOfDay(r.to.value));
    }
    BarChartTotals(filtered, r, clock.now, Buckets(filtered, first, n));
  }

  // ---- Category distribution (`preparePieChartData`) ----

  /** One slice of a category pie: the category's name, the amount booked on it and its id. */
  datatype CategorySlice = CategorySlice(name: string, value: int, categoryId: string)

  function SliceValue(slice: CategorySlice): int
  {
    slice.value
  }

  predicate HasPositiveValue(slice: CategorySlice)
  {
    slice.value > 0
  }

  function CategoryHasKind(kind: TransactionType): Category -> bool
  {
    (c: Category) => c.kind == kind
  }

  /**
   * The name a slice carries: seeding `set`s every category in turn, so the
   * last category with the id names it.
   */
  function LastName(seeds: seq<Category>, id: string): (name: string)
    ensures (exists c :: c in seeds && c.id == id) ==> exists c :: c in seeds && c.id == id && c.name == name
  {
    if seeds == [] then ""
    else
      var init, last := seeds[..|seeds| - 1], seeds[|seeds| - 1];
      assert seeds == init + [last];
      if last.id == id then last.name else LastName(init, id)
  }

  /** The slice for category `id`: its name among the seeds and its total among `ofType`. */
  function SliceOf(seeds: seq<Category>, ofType: seq<Transaction>, id: string): CategorySlice
  {
    CategorySlice(LastName(seeds, id), CategoryTotal(ofType, id), id)
  }

  function SlicesFor(seeds: seq<Category>, ofType: seq<Transaction>, ids: seq<string>): (r: seq<CategorySlice>)
    ensures |r| == |ids|
    ensures forall i :: 0 <= i < |ids| ==> r[i] == SliceOf(seeds, ofType, ids[i])
  {
    if ids == [] then []
    else SlicesFor(seeds, ofType, ids[..|ids| - 1]) + [SliceOf(seeds, ofType, ids[|ids| - 1])]
  }

  /** The map's values before the final filter and sort: one slice per seeded id, in first-seeding order. */
  function PieSlices(seeds: seq<Category>, ofType: seq<Transaction>): seq<CategorySlice>
  {
    SlicesFor(seeds, ofType, Dedupe(CategoryIds(seeds)))
  }

  /** The pie of one type: the positive slices, largest first, ties in seeding order. */
  function PieChart(filtered: seq<Transaction>, categories: seq<Category>, kind: TransactionType): seq<CategorySlice>
  {
    PieOf(Filter(CategoryHasKind(kind), categories), Filter(HasType(kind), filtered))
  }

  /**
   * `preparePieChartData(type)`: seeds one zero slice per category of the type,
   * adds each transaction of the type to the slice of its category (dropping
   * it when there is none), then keeps the positive slices, largest first.
   */
  method PreparePieChartData(filtered: seq<Transaction>, categories: seq<Category>, kind: TransactionType)
    returns (data: seq<CategorySlice>)
    ensures data == PieChart(filtered, categories, kind)
  {
    var seeds := Filter(CategoryHasKind(kind), categories);
    var categoryMap := SeedSlices(seeds);
    var ofType := Filter(HasType(kind), filtered);
    SeededSlicesAreEmpty(categoryMap, seeds, ofType);
    categoryMap := AddToSlices(categoryMap, seeds, ofType);
    var values := categoryMap.Values();
    ValuesAreSlices(categoryMap, seeds, ofType, values);
    data := SortBy(SliceValue, true, Filter(HasPositiveValue, values));
  }

  /** The seeding `forEach`: one zero slice per category, in order. */
  method SeedSlices(seeds: seq<Category>) returns (categoryMap: OrderedMap<string, CategorySlice>)
    ensures categoryMap.Valid()
    ensures SeededSlices(categoryMap, seeds)
  {
    categoryMap := Empty<string, CategorySlice>();
    for j := 0 to |seeds|
      invariant categoryMap.Valid()
      invariant SeededSlices(categoryMap, seeds[..j])
    {
      var category := seeds[j];
      assert seeds[..j + 1] == seeds[..j] + [category];
      SeedSliceStep(categoryMap, seeds[..j], category);
      categoryMap := categoryMap.Set(category.id, CategorySlice(category.name, 0, category.id));
    }
    assert seeds[..|seeds|] == seeds;
  }

  /** The accumulating `forEach`: each transaction's amount goes to the slice of its category, if any. */
  method AddToSlices(seeded: OrderedMap<string, CategorySlice>, seeds: seq<Category>, ofType: seq<Transaction>)
    returns (categoryMap: OrderedMap<string, CategorySlice>)
    requires seeded.Valid()
    requires SlicesHoldTotals(seeded, seeds, ofType[..0])
    ensures categoryMap.Valid()
    ensures SlicesHoldTotals(categoryMap, seeds, ofType)
  {
    categoryMap := seeded;
    for i := 0 to |ofType|
      invariant categoryMap.Valid()
      invariant SlicesHoldTotals(categoryMap, seeds, ofType[..i])
    {
      var transaction := ofType[i];
      var existing := categoryMap.Get(transaction.categoryId);
      if existing.Some? {
        var updated := existing.value.(value := existing.value.value + transaction.amount);
        SliceStep(categoryMap, seeds, ofType, i, updated);
        categoryMap := categoryMap.Set(transaction.categoryId, updated);
      } else {
        UnknownSliceStep(categoryMap, seeds, ofType, i);
      }
    }
    assert ofType[..|ofType|] == ofType;
  }

  /** After seeding `done`: one key per id in first-seeding order, each with an empty slice named by its last category. */
  ghost predicate SeededSlices(categoryMap: OrderedMap<string, CategorySlice>, done: seq<Category>)
  {
    && categoryMap.keys == Dedupe(CategoryIds(done))
    && forall id :: id in categoryMap.entries ==> categoryMap.entries[id] == CategorySlice(LastName(done, id), 0, id)
  }

  /** While accumulating: the same keys, each slice holding the total of the transactions `done`. */
  ghost predicate SlicesHoldTotals(categoryMap: OrderedMap<string, CategorySlice>, seeds: seq<Category>, done: seq<Transaction>)
  {
    && categoryMap.keys == Dedupe(CategoryIds(seeds))
    && forall id :: id in categoryMap.entries ==> categoryMap.entries[id] == SliceOf(seeds, done, id)
  }

  /** Seeding one more category sets its id's slice to zero under its name; a new id goes last. */
  lemma SeedSliceStep(categoryMap: OrderedMap<string, CategorySlice>, done: seq<Category>, c: Category)
    requires categoryMap.Valid()
    requires SeededSlices(categoryMap, done)
    ensures SeededSlices(categoryMap.Set(c.id, CategorySlice(c.name, 0, c.id)), done + [c])
  {
    var m := categoryMap.Set(c.id, CategorySlice(c.name, 0, c.id));
    IdsAppend(done, c);
    DedupeSnoc(CategoryIds(done), c.id);
    assert m.keys == Dedupe(CategoryIds(done + [c]));
    SeededNames(categoryMap.entries, done, c);
  }

  lemma SeededNames(entries: map<string, CategorySlice>, done: seq<Category>, c: Category)
    requires forall id :: id in entries ==> entries[id] == CategorySlice(LastName(done, id), 0, id)
    ensures var seeded := entries[c.id := CategorySlice(c.name, 0, c.id)];
            forall id :: id in seeded ==> seeded[id] == CategorySlice(LastName(done + [c], id), 0, id)
  {
    var seeded := entries[c.id := CategorySlice(c.name, 0, c.id)];
    forall id | id in seeded
      ensures seeded[id] == CategorySlice(LastName(done + [c], id), 0, id)
    {
      LastNameSnoc(done, c, id);
      if id != c.id {
        assert seeded[id] == entries[id];
      }
    }
  }

  lemma LastNameSnoc(done: seq<Category>, c: Category, id: string)
    ensures LastName(done + [c], id) == if c.id == id then c.name else LastName(done, id)
  {
    assert (done + [c])[..|done|] == done;
  }

  lemma SeededSlicesAreEmpty(categoryMap: OrderedMap<string, CategorySlice>, seeds: seq<Category>, ofType: seq<Transaction>)
    requires SeededSlices(categoryMap, seeds)
    ensures SlicesHoldTotals(categoryMap, seeds, ofType[..0])
  {
    assert ofType[..0] == [];
  }

  lemma CategoryTotalStep(ofType: seq<Transaction>, i: int, id: string)
    requires 0 <= i < |ofType|
    ensures CategoryTotal(ofType[..i + 1], id)
         == CategoryTotal(ofType[..i], id) + (if ofType[i].categoryId == id then ofType[i].amount else 0)
  {
    assert ofType[..i + 1] == ofType[..i] + [ofType[i]];
    SumFilterSnoc(HasCategory(id), ofType[..i], ofType[i]);
  }

  /** A transaction whose category has a slice adds its amount to that slice. */
  lemma SliceStep(categoryMap: OrderedMap<string, CategorySlice>, seeds: seq<Category>, ofType: seq<Transaction>, i: int,
                  updated: CategorySlice)
    requires 0 <= i < |ofType|
    requires categoryMap.Valid()
    requires SlicesHoldTotals(categoryMap, seeds, ofType[..i])
    requires ofType[i].categoryId in categoryMap.entries
    requires var cur := categoryMap.entries[ofType[i].categoryId];
             updated == cur.(value := cur.value + ofType[i].amount)
    ensures SlicesHoldTotals(categoryMap.Set(ofType[i].categoryId, updated), seeds, ofType[..i + 1])
  {
    var m := categoryMap.Set(ofType[i].categoryId, updated);
    forall id | id in m.entries
      ensures m.entries[id] == SliceOf(seeds, ofType[..i + 1], id)
    {
      CategoryTotalStep(ofType, i, id);
    }
  }

  /** A transaction whose category has no slice is dropped. */
  lemma UnknownSliceStep(categoryMap: OrderedMap<string, CategorySlice>, seeds: seq<Category>, ofType: seq<Transaction>, i: int)
    requires 0 <= i < |ofType|
    requires SlicesHoldTotals(categoryMap, seeds, ofType[..i])
    requires ofType[i].categoryId !in categoryMap.entries
    ensures SlicesHoldTotals(categoryMap, seeds, ofType[..i + 1])
  {
    forall id | id in categoryMap.entries
      ensures categoryMap.entries[id] == SliceOf(seeds, ofType[..i + 1], id)
    {
      CategoryTotalStep(ofType, i, id);
    }
  }

  lemma ValuesAreSlices(categoryMap: OrderedMap<string, CategorySlice>, seeds: seq<Category>, ofType: seq<Transaction>,
                        values: seq<CategorySlice>)
    requires categoryMap.Valid()
    requires SlicesHoldTotals(categoryMap, seeds, ofType)
    requires values == categoryMap.Values()
    ensures values == PieSlices(seeds, ofType)
  {
    var slices := PieSlices(seeds, ofType);
    forall k | 0 <= k < |values|
      ensures values[k] == slices[k]
    {
      assert categoryMap.keys[k] in categoryMap.entries;
    }
    Extensionality(values, slices);
  }

  lemma SlicesForDistinct(seeds: seq<Category>, ofType: seq<Transaction>, ids: seq<string>)
    requires Distinct(ids)
    ensures Distinct(SlicesFor(seeds, ofType, ids))
  {
    var r := SlicesFor(seeds, ofType, ids);
    forall i, j | 0 <= i < j < |r|
      ensures r[i] != r[j]
    {
      assert r[i].categoryId == ids[i] && r[j].categoryId == ids[j];
    }
  }

  /** The positive slices of `seeds` over `ofType`, largest first. */
  function PieOf(seeds: seq<Category>, ofType: seq<Transaction>): seq<CategorySlice>
  {
    SortBy(SliceValue, true, Filter(HasPositiveValue, PieSlices(seeds, ofType)))
  }

  lemma PieSound(seeds: seq<Category>, ofType: seq<Transaction>)
    ensures forall s :: s in PieOf(seeds, ofType) ==>
              && s.value > 0
              && s == SliceOf(seeds, ofType, s.categoryId)
              && exists c :: c in seeds && c.id == s.categoryId && c.name == s.name
  {
    var ids := CategoryIds(seeds);
    var keys := Dedupe(ids);
    var slices := PieSlices(seeds, ofType);
    var positive := Filter(HasPositiveValue, slices);
    var data := PieOf(seeds, ofType);
    forall s | s in data
      ensures s.value > 0 && s == SliceOf(seeds, ofType, s.categoryId)
      ensures exists c :: c in seeds && c.id == s.categoryId && c.name == s.name
    {
      assert s in multiset(data);
      assert s in positive;
      var i :| 0 <= i < |slices| && slices[i] == s;
      assert keys[i] in keys;
      var k :| 0 <= k < |ids| && ids[k] == keys[i];
      assert seeds[k] in seeds && seeds[k].id == s.categoryId;
    }
  }

  lemma PieComplete(seeds: seq<Category>, ofType: seq<Transaction>)
    ensures forall c :: c in seeds && CategoryTotal(ofType, c.id) > 0 ==> SliceOf(seeds, ofType, c.id) in PieOf(seeds, ofType)
  {
    forall c | c in seeds && CategoryTotal(ofType, c.id) > 0
      ensures SliceOf(seeds, ofType, c.id) in PieOf(seeds, ofType)
    {
      SeedHasSlice(seeds, ofType, c);
      var positive := Filter(HasPositiveValue, PieSlices(seeds, ofType));
      assert SliceOf(seeds, ofType, c.id) in positive;
      assert SliceOf(seeds, ofType, c.id) in multiset(positive);
    }
  }

  /** Every seeded category has its slice among the map's values. */
  lemma SeedHasSlice(seeds: seq<Category>, ofType: seq<Transaction>, c: Category)
    requires c in seeds
    ensures SliceOf(seeds, ofType, c.id) in PieSlices(seeds, ofType)
  {
    var ids := CategoryIds(seeds);
    var keys := Dedupe(ids);
    var k :| 0 <= k < |seeds| && seeds[k] == c;
    assert ids[k] == c.id;
    assert c.id in keys;
    var i :| 0 <= i < |keys| && keys[i] == c.id;
    assert PieSlices(seeds, ofType)[i] == SliceOf(seeds, ofType, c.id);
  }

  lemma PieDistinct(seeds: seq<Category>, ofType: seq<Transaction>)
    ensures var data := PieOf(seeds, ofType);
            forall i, j :: 0 <= i < j < |data| ==> data[i].categoryId != data[j].categoryId
  {
    var slices := PieSlices(seeds, ofType);
    var data := PieOf(seeds, ofType);
    PieSound(seeds, ofType);
    SlicesForDistinct(seeds, ofType, Dedupe(CategoryIds(seeds)));
    forall i, j | 0 <= i < j < |data|
      ensures data[i].categoryId != data[j].categoryId
    {
      if data[i].categoryId == data[j].categoryId {
        assert data[i] in data && data[j] in data;
        OccursTwice(data, i, j);
        FilterCount(HasPositiveValue, slices, data[i]);
        DistinctOccursOnce(slices, data[i]);
        assert false;
      }
    }
  }

  /**
   * What the pie shows: only slices with a positive value, largest first; each
   * slice is named after a category of the type with its id and holds the
   * total of the transactions of the type in that category; every category of
   * the type with a positive total has its slice; and no category appears twice.
   */
  lemma PieChartContents(filtered: seq<Transaction>, categories: seq<Category>, kind: TransactionType)
    ensures SortedBy(SliceValue, true, PieChart(filtered, categories, kind))
    ensures var ofType := Filter(HasType(kind), filtered);
            forall s :: s in PieChart(filtered, categories, kind) ==>
              && s.value > 0
              && s.value == CategoryTotal(ofType, s.categoryId)
              && exists c :: c in categories && c.kind == kind && c.id == s.categoryId && c.name == s.name
    ensures var ofType := Filter(HasType(kind), filtered);
            forall c :: c in categories && c.kind == kind && CategoryTotal(ofType, c.id) > 0 ==>
              exists s :: s in PieChart(filtered, categories, kind) && s.categoryId == c.id
    ensures var data := PieChart(filtered, categories, kind);
            forall i, j :: 0 <= i < j < |data| ==> data[i].categoryId != data[j].categoryId
  {
    var seeds := Filter(CategoryHasKind(kind), categories);
    var ofType := Filter(HasType(kind), filtered);
    assert PieChart(filtered, categories, kind) == PieOf(seeds, ofType);
    PieSound(seeds, ofType);
    PieComplete(seeds, ofType);
    PieDistinct(seeds, ofType);
    forall c | c in categories && c.kind == kind && CategoryTotal(ofType, c.id) > 0
      ensures SliceOf(seeds, ofType, c.id) in PieOf(seeds, ofType)
    {
      assert c in seeds;
    }
  }

  /**
   * With positive amounts, as the entry form demands, every category of the
   * type that has a transaction of the type gets a slice.
   */
  lemma PieShowsBookedCategories(filtered: seq<Transaction>, categories: seq<Category>, kind: TransactionType)
    requires PositiveAmounts(filtered)
    ensures forall c, t :: c in categories && c.kind == kind && t in filtered && t.kind == kind && t.categoryId == c.id ==>
              exists s :: s in PieChart(filtered, categories, kind) && s.categoryId == c.id
  {
    var ofType := Filter(HasType(kind), filtered);
    assert PositiveAmounts(ofType) by {
      forall i | 0 <= i < |ofType|
        ensures ofType[i].amount > 0
      {
        assert ofType[i] in filtered;
      }
    }
    PieChartContents(filtered, categories, kind);
    forall c, t | c in categories && c.kind == kind && t in filtered && t.kind == kind && t.categoryId == c.id
      ensures CategoryTotal(ofType, c.id) > 0
    {
      assert t in ofType;
      BookedTotalIsPositive(ofType, c.id, t);
    }
  }

  /** A category with a transaction among positive amounts has a positive total. */
  lemma BookedTotalIsPositive(transactions: seq<Transaction>, id: string, t: Transaction)
    requires PositiveAmounts(transactions)
    requires t in transactions && t.categoryId == id
    ensures CategoryTotal(transactions, id) > 0
  {
    var booked := Filter(HasCategory(id), transactions);
    assert t in booked;
    assert PositiveAmounts(booked) by {
      forall i | 0 <= i < |booked|
        ensures booked[i].amount > 0
      {
        assert booked[i] in transactions;
        var k :| 0 <= k < |transactions| && transactions[k] == booked[i];
      }
    }
    SumOfPositivesIsPositive(booked);
  }

  /**
   * Ties keep seeding order: the slices of any one positive value appear in
   * the pie in the order their categories were first seeded.
   */
  lemma PieChartTiesKeepSeedOrder(filtered: seq<Transaction>, categories: seq<Category>, kind: TransactionType, v: int)
    requires v > 0
    ensures var slices := PieSlices(Filter(CategoryHasKind(kind), categories), Filter(HasType(kind), filtered));
            Filter(KeyIs(SliceValue, v), PieChart(filtered, categories, kind)) == Filter(KeyIs(SliceValue, v), slices)
  {
    var slices := PieSlices(Filter(CategoryHasKind(kind), categories), Filter(HasType(kind), filtered));
    var positive := Filter(HasPositiveValue, slices);
    SortIsStable(SliceValue, true, positive, v);
    FilterFuse(HasPositiveValue, KeyIs(SliceValue, v), KeyIs(SliceValue, v), slices);
  }
}
