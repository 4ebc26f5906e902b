/**
 * The shared transaction logic (src/utils/transactionUtils.ts): the built-in
 * categories, the fallbacks of the stored collections, the filter engine, the
 * summary aggregator and the lookups by type, category and id.
 */
module TransactionUtils {
  import opened Wrappers
  import opened JsArray
  import opened Types
  import opened Calendar

  /** The fourteen built-in categories: five income categories, then nine expense categories. */
  const DefaultCategories: seq<Category> := [
    Category("salary", "工资", Income, None),
    Category("bonus", "奖金", Income, None),
    Category("investment", "投资收益", Income, None),
    Category("gift", "礼金", Income, None),
    Category("other-income", "其他收入", Income, None),
    Category("food", "餐饮", Expense, None),
    Category("shopping", "购物", Expense, None),
    Category("housing", "住房", Expense, None),
    Category("transportation", "交通", Expense, None),
    Category("entertainment", "娱乐", Expense, None),
    Category("medical", "医疗", Expense, None),
    Category("education", "教育", Expense, None),
    Category("utilities", "水电", Expense, None),
    Category("other-expense", "其他支出", Expense, None)
  ]

  /** The income categories come first, then the expense categories. */
  lemma DefaultCategoriesKinds()
    ensures |DefaultCategories| == 14
    ensures forall i :: 0 <= i < 5 ==> DefaultCategories[i].kind == Income
    ensures forall i :: 5 <= i < 14 ==> DefaultCategories[i].kind == Expense
  {
  }

  /** No two built-in categories share an id. */
  lemma DefaultCategoriesDistinct()
    ensures Distinct(CategoryIds(DefaultCategories))
  {
    assert forall i, j :: 0 <= i < j < 14 ==> DefaultCategories[i].id != DefaultCategories[j].id;
    DistinctIds(DefaultCategories);
  }

  // ---------------------------------------------------------------- loading

  /**
   * `getTransactions`: the stored list, where `parsed` is the outcome of
   * reading and parsing it (`None` when nothing is stored or it does not parse).
   */
  function LoadTransactions(parsed: Option<seq<Transaction>>): (r: seq<Transaction>)
    ensures parsed.None? ==> r == []
    ensures parsed.Some? ==> r == parsed.value
  {
    parsed.GetOr([])
  }

  /** `getCategories`: the stored list, or the built-in categories when there is none. */
  function LoadCategories(parsed: Option<seq<Category>>): (r: seq<Category>)
    ensures parsed.None? ==> r == DefaultCategories
    ensures parsed.Some? ==> r == parsed.value
  {
    parsed.GetOr(DefaultCategories)
  }

  // ---------------------------------------------------------- filter engine

  /**
   * The date axis: `from` is compared with the exact instant, while `to`
   * admits everything up to the last millisecond of its local day.
   */
  predicate InDateRange(date: int, range: DateRange)
  {
    && (range.from.None? || range.from.value <= date)
    && (range.to.None? || date <= EndOfDay(range.to.value))
  }

  /** The three axes of `filterTransactions`, all of which must pass. */
  predicate Keeps(options: FilterOptions, t: Transaction)
  {
    && InDateRange(t.date, options.dateRange)
    && (|options.types| == 0 || t.kind in options.types)
    && (|options.categoryIds| == 0 || t.categoryId in options.categoryIds)
  }

  function MatchesOptions(options: FilterOptions): Transaction -> bool
  {
    (t: Transaction) => Keeps(options, t)
  }

  /** `filterTransactions`: the in-order subsequence of the transactions that pass every axis. */
  function FilterTransactions(transactions: seq<Transaction>, options: FilterOptions): (r: seq<Transaction>)
    ensures IsSubseq(r, transactions)
    ensures forall t :: t in r <==> t in transactions && Keeps(options, t)
    ensures forall t :: t in r && |options.types| > 0 ==> t.kind in options.types
    ensures forall t :: t in r && |options.categoryIds| > 0 ==> t.categoryId in options.categoryIds
    ensures forall t :: t in r && options.dateRange.from.Some? ==> options.dateRange.from.value <= t.date
    ensures forall t :: t in r && options.dateRange.to.Some? ==> t.date <= EndOfDay(options.dateRange.to.value)
  {
    FilterIsSubseq(MatchesOptions(options), transactions);
    Filter(MatchesOptions(options), transactions)
  }

  /** With no bounds and empty type and category lists nothing is filtered out. */
  lemma {:induction false} FilterWithoutCriteriaIsIdentity(transactions: seq<Transaction>)
    ensures FilterTransactions(transactions, FilterOptions(DateRange(None, None), [], [])) == transactions
  {
    FilterKeepsAll(MatchesOptions(FilterOptions(DateRange(None, None), [], [])), transactions);
  }

  /**
   * The two ends of the date axis: the last millisecond of the `to` day is
   * inside and the next one is not; `from` is not rounded down to midnight, so
   * an earlier time on the `from` day is outside.
   */
  lemma DateRangeBoundaries(from: int, to: int)
    ensures InDateRange(EndOfDay(to), DateRange(None, Some(to)))
    ensures DayOf(EndOfDay(to)) == DayOf(to)
    ensures !InDateRange(EndOfDay(to) + 1, DateRange(None, Some(to)))
    ensures InDateRange(from, DateRange(Some(from), None))
    ensures !InDateRange(from - 1, DateRange(Some(from), None))
    ensures TimeOfDay(from) > 0 ==> DayOf(from - 1) == DayOf(from)
  {
    assert TimeOfDay(from) > 0 ==> TimeOfDay(from) - 1 >= 0;
    if TimeOfDay(from) > 0 {
      DayOfWithin(DayOf(from), TimeOfDay(from) - 1);
    }
  }

  // ------------------------------------------------------------- lookups

  function HasType(kind: TransactionType): Transaction -> bool
  {
    (t: Transaction) => t.kind == kind
  }

  function HasCategory(categoryId: string): Transaction -> bool
  {
    (t: Transaction) => t.categoryId == categoryId
  }

  /** `getTransactionsByType`: exactly the transactions of that type, in order. */
  function GetTransactionsByType(transactions: seq<Transaction>, kind: TransactionType): (r: seq<Transaction>)
    ensures IsSubseq(r, transactions)
    ensures forall t :: t in r <==> t in transactions && t.kind == kind
  {
    FilterIsSubseq(HasType(kind), transactions);
    Filter(HasType(kind), transactions)
  }

  /** `getTransactionsByCategory`: exactly the transactions of that category, in order. */
  function GetTransactionsByCategory(transactions: seq<Transaction>, categoryId: string): (r: seq<Transaction>)
    ensures IsSubseq(r, transactions)
    ensures forall t :: t in r <==> t in transactions && t.categoryId == categoryId
  {
    FilterIsSubseq(HasCategory(categoryId), transactions);
    Filter(HasCategory(categoryId), transactions)
  }

  /** `getCategoryById`: the first category with that id, or none. */
  function GetCategoryById(categories: seq<Category>, categoryId: string): (r: Option<Category>)
    ensures r.None? <==> forall i :: 0 <= i < |categories| ==> categories[i].id != categoryId
    ensures r.Some? ==> exists i :: 0 <= i < |categories| && categories[i] == r.value && r.value.id == categoryId
                                   && forall j :: 0 <= j < i ==> categories[j].id != categoryId
  {
    var i := IndexOf(CategoryIds(categories), categoryId);
    if i == -1 then
      assert forall i :: 0 <= i < |categories| ==> CategoryIds(categories)[i] != categoryId;
      None
    else Some(categories[i])
  }

  // ------------------------------------------------------------------ sums

  /** `transactions.reduce((sum, t) => sum + t.amount, 0)`. */
  function SumAmounts(transactions: seq<Transaction>): int
  {
    if transactions == [] then 0
    else SumAmounts(transactions[..|transactions| - 1]) + transactions[|transactions| - 1].amount
  }

  /** The total of one type: the sum over `getTransactionsByType`. */
  function TypeTotal(transactions: seq<Transaction>, kind: TransactionType): int
  {
    SumAmounts(Filter(HasType(kind), transactions))
  }

  /** The total of one category: the sum over `getTransactionsByCategory`. */
  function CategoryTotal(transactions: seq<Transaction>, categoryId: string): int
  {
    SumAmounts(Filter(HasCategory(categoryId), transactions))
  }

  function HasCategoryIn(ids: seq<string>): Transaction -> bool
  {
    (t: Transaction) => t.categoryId in ids
  }

  /** The total of the transactions whose category is one of `ids`. */
  function KnownCategoryTotal(transactions: seq<Transaction>, ids: seq<string>): int
  {
    SumAmounts(Filter(HasCategoryIn(ids), transactions))
  }

  lemma SumAppend(a: seq<Transaction>, t: Transaction)
    ensures SumAmounts(a + [t]) == SumAmounts(a) + t.amount
  {
    assert (a + [t])[..|a + [t]| - 1] == a;
  }

  /** A filtered sum grows by the amount of a new transaction exactly when the filter keeps it. */
  lemma SumFilterSnoc(f: Transaction -> bool, ts: seq<Transaction>, t: Transaction)
    ensures SumAmounts(Filter(f, ts + [t])) == SumAmounts(Filter(f, ts)) + (if f(t) then t.amount else 0)
  {
    assert (ts + [t])[..|ts + [t]| - 1] == ts;
    if f(t) {
      SumAppend(Filter(f, ts), t);
    }
  }

  lemma {:induction false} SumOfPositivesIsPositive(transactions: seq<Transaction>)
    requires PositiveAmounts(transactions) && transactions != []
    ensures SumAmounts(transactions) > 0
    decreases |transactions|
  {
    var init := transactions[..|transactions| - 1];
    if init != [] {
      SumOfPositivesIsPositive(init);
    }
  }

  /** A sum over fewer of the (positive) transactions is no larger. */
  lemma {:induction false} FilteredSumBounded(f: Transaction -> bool, transactions: seq<Transaction>)
    requires PositiveAmounts(transactions)
    ensures 0 <= SumAmounts(Filter(f, transactions)) <= SumAmounts(transactions)
    decreases |transactions|
  {
    if transactions != [] {
      var init, last := transactions[..|transactions| - 1], transactions[|transactions| - 1];
      assert transactions == init + [last];
      FilteredSumBounded(f, init);
      SumFilterSnoc(f, init, last);
    }
  }

  /**
   * Every transaction is income or expense, so the two type totals add up to
   * the sum of all amounts.
   */
  lemma {:induction false} TypeTotalsCoverAll(transactions: seq<Transaction>)
    ensures TypeTotal(transactions, Income) + TypeTotal(transactions, Expense) == SumAmounts(transactions)
    decreases |transactions|
  {
    if transactions != [] {
      var init, last := transactions[..|transactions| - 1], transactions[|transactions| - 1];
      assert transactions == init + [last];
      TypeTotalsCoverAll(init);
      SumFilterSnoc(HasType(Income), init, last);
      SumFilterSnoc(HasType(Expense), init, last);
    }
  }

  // ------------------------------------------------------- summary aggregator

  /**
   * Entry `i` of the `categorySummary` that `generateSummary` promises: it
   * carries the id of category `i`, and the total of that id when category `i`
   * is the first with it; a later duplicate stays at zero.
   */
  function SummaryEntry(transactions: seq<Transaction>, categories: seq<Category>, i: int): CategoryAmount
    requires 0 <= i < |categories|
  {
    var id := categories[i].id;
    CategoryAmount(id, if id in CategoryIds(categories[..i]) then 0 else CategoryTotal(transactions, id))
  }

  /** The whole table: one entry per category, in order. */
  function CategorySummaryOf(transactions: seq<Transaction>, categories: seq<Category>): (r: seq<CategoryAmount>)
    ensures |r| == |categories|
    ensures forall i :: 0 <= i < |categories| ==> r[i] == SummaryEntry(transactions, categories, i)
  {
    if categories == [] then []
    else
      var init := categories[..|categories| - 1];
      var r0 := CategorySummaryOf(transactions, init);
      assert forall i :: 0 <= i < |init| ==> init[..i] == categories[..i];
      r0 + [SummaryEntry(transactions, categories, |categories| - 1)]
  }

  /** The `categoryId` of every summary entry, in order. */
  function EntryIds(entries: seq<CategoryAmount>): (ids: seq<string>)
    ensures |ids| == |entries|
    ensures forall i :: 0 <= i < |entries| ==> ids[i] == entries[i].categoryId
  {
    if entries == [] then []
    else [entries[0].categoryId] + EntryIds(entries[1..])
  }

  /**
   * `generateSummary`: the income and expense totals, their difference, and
   * the per-category table. Amounts whose category is unknown count in the
   * totals and in no entry.
   */
  method GenerateSummary(transactions: seq<Transaction>, categories: seq<Category>) returns (summary: TransactionSummary)
    ensures summary.totalIncome == TypeTotal(transactions, Income)
    ensures summary.totalExpense == TypeTotal(transactions, Expense)
    ensures summary.netAmount == summary.totalIncome - summary.totalExpense
    ensures summary.categorySummary == CategorySummaryOf(transactions, categories)
  {
    var totalIncome := 0;
    var totalExpense := 0;
    var categorySummary := ZeroTable(categories);
    SeededTableIsUpToDate(categorySummary, transactions, categories);

    // Sum up transactions
    for i := 0 to |transactions|
      invariant TotalsUpToDate(totalIncome, totalExpense, transactions[..i])
      invariant UpToDate(categorySummary, transactions[..i], categories)
    {
      var t := transactions[i];
      ghost var done := transactions[..i];
      assert transactions[..i + 1] == done + [t];
      TotalsStep(done, t, totalIncome, totalExpense);
      if t.kind == Income {
        totalIncome := totalIncome + t.amount;
      } else {
        totalExpense := totalExpense + t.amount;
      }

      // Add to category summary
      categorySummary := AddToTable(categorySummary, done, t, categories);
    }

    summary := TransactionSummary(totalIncome, totalExpense, totalIncome - totalExpense, categorySummary);
    assert transactions[..|transactions|] == transactions;
    UpToDateIsSummary(categorySummary, transactions, categories);
    assert TotalsUpToDate(totalIncome, totalExpense, transactions);
  }

  /**
   * The category half of one aggregation step: the amount goes to the first
   * entry carrying the transaction's category, or nowhere when none does.
   */
  method AddToTable(table: seq<CategoryAmount>, ghost done: seq<Transaction>, t: Transaction, categories: seq<Category>)
    returns (next: seq<CategoryAmount>)
    requires UpToDate(table, done, categories)
    ensures UpToDate(next, done + [t], categories)
  {
    next := table;
    var categoryIndex := IndexOf(EntryIds(table), t.categoryId);
    if categoryIndex != -1 {
      KnownCategoryStep(done, t, categories, table);
      next := table[categoryIndex := CategoryAmount(table[categoryIndex].categoryId, table[categoryIndex].amount + t.amount)];
    } else {
      UnknownCategoryStep(done, t, categories, table);
    }
  }

  /** The seeding `forEach`: one zero entry per category, in order. */
  method ZeroTable(categories: seq<Category>) returns (categorySummary: seq<CategoryAmount>)
    ensures |categorySummary| == |categories|
    ensures forall j :: 0 <= j < |categories| ==> categorySummary[j] == CategoryAmount(categories[j].id, 0)
  {
    categorySummary := [];
    for i := 0 to |categories|
      invariant |categorySummary| == i
      invariant forall j :: 0 <= j < i ==> categorySummary[j] == CategoryAmount(categories[j].id, 0)
    {
      categorySummary := categorySummary + [CategoryAmount(categories[i].id, 0)];
    }
  }

  /** `table` holds the entries of `CategorySummaryOf(transactions, categories)`. */
  ghost predicate UpToDate(table: seq<CategoryAmount>, transactions: seq<Transaction>, categories: seq<Category>)
  {
    && |table| == |categories|
    && forall j :: 0 <= j < |categories| ==> table[j] == SummaryEntry(transactions, categories, j)
  }

  /** The zero-seeded table is up to date before any transaction. */
  lemma SeededTableIsUpToDate(table: seq<CategoryAmount>, transactions: seq<Transaction>, categories: seq<Category>)
    requires |table| == |categories|
    requires forall j :: 0 <= j < |categories| ==> table[j] == CategoryAmount(categories[j].id, 0)
    ensures UpToDate(table, transactions[..0], categories)
  {
    assert transactions[..0] == [];
  }

  lemma UpToDateIsSummary(table: seq<CategoryAmount>, transactions: seq<Transaction>, categories: seq<Category>)
    requires UpToDate(table, transactions, categories)
    ensures table == CategorySummaryOf(transactions, categories)
  {
    Extensionality(table, CategorySummaryOf(transactions, categories));
  }

  /** `income` and `expense` are the type totals of `transactions`. */
  ghost predicate TotalsUpToDate(income: int, expense: int, transactions: seq<Transaction>)
  {
    income == TypeTotal(transactions, Income) && expense == TypeTotal(transactions, Expense)
  }

  /** One step of the aggregation on the type totals: the amount goes to the total of its type. */
  lemma TotalsStep(done: seq<Transaction>, t: Transaction, income: int, expense: int)
    requires TotalsUpToDate(income, expense, done)
    ensures t.kind == Income ==> TotalsUpToDate(income + t.amount, expense, done + [t])
    ensures t.kind == Expense ==> TotalsUpToDate(income, expense + t.amount, done + [t])
  {
    SumFilterSnoc(HasType(Income), done, t);
    SumFilterSnoc(HasType(Expense), done, t);
  }

  /** An up-to-date table lists the categories' ids, in order. */
  lemma EntryIdsAreCategoryIds(table: seq<CategoryAmount>, done: seq<Transaction>, categories: seq<Category>)
    requires UpToDate(table, done, categories)
    ensures EntryIds(table) == CategoryIds(categories)
  {
    Extensionality(EntryIds(table), CategoryIds(categories));
  }

  /** A transaction whose category is in no entry leaves an up-to-date table as it is. */
  lemma UnknownCategoryStep(done: seq<Transaction>, t: Transaction, categories: seq<Category>, table: seq<CategoryAmount>)
    requires UpToDate(table, done, categories)
    requires IndexOf(EntryIds(table), t.categoryId) == -1
    ensures UpToDate(table, done + [t], categories)
  {
    EntryIdsAreCategoryIds(table, done, categories);
    forall j | 0 <= j < |categories|
      ensures table[j] == SummaryEntry(done + [t], categories, j)
    {
      EntryStep(done, t, categories, j);
    }
  }

  /**
   * A transaction whose category is in the table adds its amount to the first
   * entry with that id, and the table is up to date again.
   */
  lemma KnownCategoryStep(done: seq<Transaction>, t: Transaction, categories: seq<Category>, table: seq<CategoryAmount>)
    requires UpToDate(table, done, categories)
    requires IndexOf(EntryIds(table), t.categoryId) != -1
    ensures var k := IndexOf(EntryIds(table), t.categoryId);
            UpToDate(table[k := CategoryAmount(table[k].categoryId, table[k].amount + t.amount)], done + [t], categories)
  {
    var k := IndexOf(EntryIds(table), t.categoryId);
    var next := table[k := CategoryAmount(table[k].categoryId, table[k].amount + t.amount)];
    EntryIdsAreCategoryIds(table, done, categories);
    forall j | 0 <= j < |categories|
      ensures next[j] == SummaryEntry(done + [t], categories, j)
    {
      EntryStep(done, t, categories, j);
      if j == k {
        assert next[j] == CategoryAmount(table[j].categoryId, table[j].amount + t.amount);
      } else {
        assert next[j] == table[j];
      }
    }
  }

  /**
   * One step of the aggregation for entry `j`: a transaction adds its amount
   * to the entry exactly when that entry is the first one with its category id.
   */
  lemma EntryStep(transactions: seq<Transaction>, t: Transaction, categories: seq<Category>, j: int)
    requires 0 <= j < |categories|
    ensures var e := SummaryEntry(transactions, categories, j);
            SummaryEntry(transactions + [t], categories, j)
              == if IndexOf(CategoryIds(categories), t.categoryId) == j
                 then CategoryAmount(e.categoryId, e.amount + t.amount)
                 else e
  {
    var ids := CategoryIds(categories);
    var id := categories[j].id;
    SumFilterSnoc(HasCategory(id), transactions, t);
    assert CategoryIds(categories[..j]) == ids[..j];
    if t.categoryId == id {
      FirstIndex(ids, j);
    }
  }

  /** `j` is where `indexOf` finds `s[j]` exactly when it does not occur before `j`. */
  lemma FirstIndex<T>(s: seq<T>, j: int)
    requires 0 <= j < |s|
    ensures IndexOf(s, s[j]) == j <==> s[j] !in s[..j]
  {
    var k := IndexOf(s, s[j]);
    if s[j] in s[..j] {
      var m :| 0 <= m < j && s[m] == s[j];
      assert k <= m;
    } else {
      assert !(k < j);
    }
  }

  /** The entries of the table, summed. */
  function SumEntries(entries: seq<CategoryAmount>): int
  {
    if entries == [] then 0
    else SumEntries(entries[..|entries| - 1]) + entries[|entries| - 1].amount
  }

  /** Adding an id to the known set adds that id's total, unless it was already known. */
  lemma {:induction false} KnownTotalSnoc(transactions: seq<Transaction>, ids: seq<string>, id: string)
    ensures KnownCategoryTotal(transactions, ids + [id])
         == KnownCategoryTotal(transactions, ids) + (if id in ids then 0 else CategoryTotal(transactions, id))
    decreases |transactions|
  {
    if transactions != [] {
      var init, last := transactions[..|transactions| - 1], transactions[|transactions| - 1];
      assert transactions == init + [last];
      KnownTotalSnoc(init, ids, id);
      SumFilterSnoc(HasCategoryIn(ids + [id]), init, last);
      SumFilterSnoc(HasCategoryIn(ids), init, last);
      SumFilterSnoc(HasCategory(id), init, last);
    }
  }

  /**
   * Conservation of the category table: each transaction adds to at most one
   * entry (the first with its id), so the entries sum to the total of the
   * transactions whose category is known, also when ids repeat.
   */
  lemma {:induction false} CategorySummaryConserves(transactions: seq<Transaction>, categories: seq<Category>)
    ensures SumEntries(CategorySummaryOf(transactions, categories))
         == KnownCategoryTotal(transactions, CategoryIds(categories))
    decreases |categories|
  {
    if categories == [] {
      FilterNothingKnown(transactions);
    } else {
      var init, last := categories[..|categories| - 1], categories[|categories| - 1];
      var r0 := CategorySummaryOf(transactions, init);
      var e := SummaryEntry(transactions, categories, |categories| - 1);
      assert CategoryIds(init) == CategoryIds(categories[..|categories| - 1]);
      IdsSnoc(categories);
      calc {
        SumEntries(CategorySummaryOf(transactions, categories));
        SumEntries(r0 + [e]);
        { SumEntriesSnoc(r0, e); }
        SumEntries(r0) + e.amount;
        { CategorySummaryConserves(transactions, init); }
        KnownCategoryTotal(transactions, CategoryIds(init)) + e.amount;
        { KnownTotalSnoc(transactions, CategoryIds(init), last.id); }
        KnownCategoryTotal(transactions, CategoryIds(init) + [last.id]);
      }
    }
  }

  lemma SumEntriesSnoc(entries: seq<CategoryAmount>, e: CategoryAmount)
    ensures SumEntries(entries + [e]) == SumEntries(entries) + e.amount
  {
    assert (entries + [e])[..|entries + [e]| - 1] == entries;
  }

  lemma IdsSnoc(categories: seq<Category>)
    requires categories != []
    ensures CategoryIds(categories) == CategoryIds(categories[..|categories| - 1]) + [categories[|categories| - 1].id]
  {
    Extensionality(CategoryIds(categories), CategoryIds(categories[..|categories| - 1]) + [categories[|categories| - 1].id]);
  }

  lemma {:induction false} FilterNothingKnown(transactions: seq<Transaction>)
    ensures KnownCategoryTotal(transactions, []) == 0
    decreases |transactions|
  {
    if transactions != [] {
      var init, last := transactions[..|transactions| - 1], transactions[|transactions| - 1];
      assert transactions == init + [last];
      FilterNothingKnown(init);
      SumFilterSnoc(HasCategoryIn([]), init, last);
    }
  }

  /** With no transactions, every total and every entry is zero. */
  lemma EmptySummaryIsZero(categories: seq<Category>)
    ensures TypeTotal([], Income) == 0 && TypeTotal([], Expense) == 0
    ensures forall i :: 0 <= i < |categories| ==> CategorySummaryOf([], categories)[i].amount == 0
  {
  }
}
