/**
 * The transaction list view (src/components/TransactionList.tsx): its own
 * filter with a free-text search, the totals of what it shows, the sort by
 * date, the grouping by local day, and the filter-panel state updates.
 */
module TransactionList {
  import opened Wrappers
  import opened JsArray
  import opened JsMap
  import opened Types
  import opened Calendar
  import opened TransactionUtils
  import opened Selection

  datatype SortOrder = Desc | Asc

  /** The view's filter state; the list starts with everything cleared and newest first. */
  datatype ListState = ListState(
    searchTerm: string,
    typeFilter: seq<TransactionType>,
    categoryFilter: seq<string>,
    sortOrder: SortOrder,
    dateRange: DateRange)

  const InitialState := ListState("", [], [], Desc, DateRange(None, None))

  // ---------------------------------------------------------------- search

  /** `toLowerCase` on the ASCII letters; other characters are kept. */
  function LowerChar(c: char): char
  {
    if 'A' <= c <= 'Z' then (c as int + 32) as char else c
  }

  function ToLower(s: string): (r: string)
    ensures |r| == |s|
    ensures forall i :: 0 <= i < |s| ==> r[i] == LowerChar(s[i])
  {
    if s == [] then [] else [LowerChar(s[0])] + ToLower(s[1..])
  }

  /** Lowering twice is lowering once. */
  lemma ToLowerIdempotent(s: string)
    ensures ToLower(ToLower(s)) == ToLower(s)
  {
    Extensionality(ToLower(ToLower(s)), ToLower(s));
  }

  predicate OccursAt(text: string, term: string, i: int)
  {
    0 <= i && i + |term| <= |text| && text[i..i + |term|] == term
  }

  /** `text.includes(term)`: `term` occurs in `text` at some position (the empty term everywhere). */
  function Includes(text: string, term: string): (b: bool)
    ensures b <==> exists i :: OccursAt(text, term, i)
    decreases |text|
  {
    if |term| > |text| then false
    else if text[..|term|] == term then
      assert OccursAt(text, term, 0);
      true
    else
      var b := Includes(text[1..], term);
      ShiftOccurrence(text, term);
      b
  }

  lemma ShiftOccurrence(text: string, term: string)
    requires |term| <= |text| && text[..|term|] != term
    ensures (exists i :: OccursAt(text, term, i)) <==> exists i :: OccursAt(text[1..], term, i)
  {
    forall i | OccursAt(text, term, i)
      ensures OccursAt(text[1..], term, i - 1)
    {
      assert i != 0;
      assert text[1..][i - 1..i - 1 + |term|] == text[i..i + |term|];
    }
    forall i | OccursAt(text[1..], term, i)
      ensures OccursAt(text, term, i + 1)
    {
      assert text[1..][i..i + |term|] == text[i + 1..i + 1 + |term|];
    }
  }

  function DigitChar(d: int): char
    requires 0 <= d < 10
  {
    ('0' as int + d) as char
  }

  /** The decimal digits of a natural number, without leading zeros. */
  function Digits(n: nat): (s: string)
    ensures |s| > 0
    ensures forall i :: 0 <= i < |s| ==> '0' <= s[i] <= '9'
  {
    if n < 10 then [DigitChar(n)] else Digits(n / 10) + [DigitChar(n % 10)]
  }

  function DigitsValue(s: string): int
  {
    if s == [] then 0 else 10 * DigitsValue(s[..|s| - 1]) + (s[|s| - 1] as int - '0' as int)
  }

  /** Reading the digits back gives the number: the rendering loses nothing. */
  lemma {:induction false} DigitsRoundTrip(n: nat)
    ensures DigitsValue(Digits(n)) == n
  {
    if n >= 10 {
      DigitsRoundTrip(n / 10);
      var s := Digits(n);
      assert s[..|s| - 1] == Digits(n / 10);
    }
  }

  /** A non-empty string of decimal digits. */
  predicate IsDecimal(s: string)
  {
    |s| > 0 && forall i :: 0 <= i < |s| ==> '0' <= s[i] <= '9'
  }

  /**
   * `amount.toString()` for a whole amount: decimal digits that read back to
   * the amount, after a minus sign when it is negative.
   */
  function AmountString(amount: int): (s: string)
    ensures amount >= 0 ==> IsDecimal(s) && DigitsValue(s) == amount
    ensures amount < 0 ==> |s| > 1 && s[0] == '-' && IsDecimal(s[1..]) && DigitsValue(s[1..]) == -amount
  {
    if amount < 0 then
      DigitsRoundTrip(-amount);
      var s := "-" + Digits(-amount);
      assert s[1..] == Digits(-amount);
      s
    else
      DigitsRoundTrip(amount);
      Digits(amount)
  }

  /** `category?.name || ''`: the name of the first category with the transaction's id, or nothing. */
  function CategoryName(categories: seq<Category>, categoryId: string): (name: string)
    ensures categoryId !in CategoryIds(categories) ==> name == ""
    ensures categoryId in CategoryIds(categories) ==>
              name == categories[IndexOf(CategoryIds(categories), categoryId)].name
  {
    match GetCategoryById(categories, categoryId)
    case Some(c) => c.name
    case None => ""
  }

  /**
   * `[name, notes, amount].join(' ').toLowerCase()`: the lowered name and
   * notes and the amount's digits (which lowering leaves alone), joined by spaces.
   */
  function SearchText(t: Transaction, categories: seq<Category>): (text: string)
    ensures text == ToLower(CategoryName(categories, t.categoryId)) + " " + ToLower(t.notes) + " " + AmountString(t.amount)
  {
    var name, amount := CategoryName(categories, t.categoryId), AmountString(t.amount);
    ToLowerAppend(name + " " + t.notes + " ", amount);
    ToLowerAppend(name + " " + t.notes, " ");
    ToLowerAppend(name + " ", t.notes);
    ToLowerAppend(name, " ");
    assert ToLower(" ") == " ";
    AmountIsLower(t.amount);
    ToLower(name + " " + t.notes + " " + amount)
  }

  lemma ToLowerAppend(a: string, b: string)
    ensures ToLower(a + b) == ToLower(a) + ToLower(b)
  {
    Extensionality(ToLower(a + b), ToLower(a) + ToLower(b));
  }

  /** Lowering leaves an amount's rendering as it is. */
  lemma AmountIsLower(amount: int)
    ensures ToLower(AmountString(amount)) == AmountString(amount)
  {
    var s := AmountString(amount);
    forall i | 0 <= i < |s|
      ensures LowerChar(s[i]) == s[i]
    {
      if amount < 0 && i > 0 {
        assert s[i] == s[1..][i - 1];
      }
    }
    Extensionality(ToLower(s), s);
  }

  /** Typing a transaction's category name, its notes or its amount finds it, in any letter case. */
  lemma SearchFindsEachField(t: Transaction, categories: seq<Category>)
    ensures MatchesSearch(CategoryName(categories, t.categoryId), categories)(t)
    ensures MatchesSearch(t.notes, categories)(t)
    ensures MatchesSearch(AmountString(t.amount), categories)(t)
  {
    var name, notes, amount := ToLower(CategoryName(categories, t.categoryId)), ToLower(t.notes), AmountString(t.amount);
    var text := SearchText(t, categories);
    JoinedParts(name, notes, amount);
    FoundAt(text, name, 0);
    FoundAt(text, notes, |name| + 1);
    FoundAt(text, amount, |name| + |notes| + 2);
    ToLowerIdempotent(CategoryName(categories, t.categoryId));
    ToLowerIdempotent(t.notes);
    AmountIsLower(t.amount);
  }

  /** Each of three space-joined parts occurs in the joined text where it was put. */
  lemma JoinedParts(a: string, b: string, c: string)
    ensures var text := a + " " + b + " " + c;
            OccursAt(text, a, 0) && OccursAt(text, b, |a| + 1) && OccursAt(text, c, |a| + |b| + 2)
  {
    var text := a + " " + b + " " + c;
    assert text[..|a|] == a;
    assert text[|a| + 1..|a| + 1 + |b|] == b;
    assert text[|a| + |b| + 2..|a| + |b| + 2 + |c|] == c;
  }

  lemma FoundAt(text: string, term: string, i: int)
    requires OccursAt(text, term, i)
    ensures Includes(text, term)
  {
  }

  /** An empty search term lets everything through; otherwise the lowered term must occur in the lowered text. */
  function MatchesSearch(searchTerm: string, categories: seq<Category>): Transaction -> bool
  {
    (t: Transaction) => searchTerm == [] || Includes(SearchText(t, categories), ToLower(searchTerm))
  }

  // ---------------------------------------------------------------- filter

  /** The view's four checks, in the order the view makes them. */
  predicate ListKeeps(state: ListState, categories: seq<Category>, t: Transaction)
  {
    && MatchesSearch(state.searchTerm, categories)(t)
    && (|state.typeFilter| == 0 || t.kind in state.typeFilter)
    && (|state.categoryFilter| == 0 || t.categoryId in state.categoryFilter)
    && ((state.dateRange.from.None? && state.dateRange.to.None?) || InDateRange(t.date, state.dateRange))
  }

  function ListPredicate(state: ListState, categories: seq<Category>): Transaction -> bool
  {
    (t: Transaction) => ListKeeps(state, categories, t)
  }

  /** `filteredTransactions`: the in-order subsequence of what passes every check. */
  function FilteredList(transactions: seq<Transaction>, categories: seq<Category>, state: ListState): (r: seq<Transaction>)
    ensures IsSubseq(r, transactions)
    ensures forall t :: t in r <==> t in transactions && ListKeeps(state, categories, t)
    ensures forall t :: t in r && state.searchTerm != [] ==>
              Includes(SearchText(t, categories), ToLower(state.searchTerm))
  {
    FilterIsSubseq(ListPredicate(state, categories), transactions);
    Filter(ListPredicate(state, categories), transactions)
  }

  function OptionsOf(state: ListState): FilterOptions
  {
    FilterOptions(state.dateRange, state.typeFilter, state.categoryFilter)
  }

  /**
   * The view's filter is `filterTransactions` with the same criteria, applied
   * to the transactions that match the search.
   */
  lemma ListFilterIsFilterTransactions(transactions: seq<Transaction>, categories: seq<Category>, state: ListState)
    ensures FilteredList(transactions, categories, state)
         == FilterTransactions(Filter(MatchesSearch(state.searchTerm, categories), transactions), OptionsOf(state))
  {
    FilterFuse(MatchesSearch(state.searchTerm, categories), MatchesOptions(OptionsOf(state)),
               ListPredicate(state, categories), transactions);
  }

  /** Without a search term the view shows exactly what `filterTransactions` keeps. */
  lemma EmptySearchIsFilterTransactions(transactions: seq<Transaction>, categories: seq<Category>, state: ListState)
    requires state.searchTerm == []
    ensures FilteredList(transactions, categories, state) == FilterTransactions(transactions, OptionsOf(state))
  {
    FilterSame(ListPredicate(state, categories), MatchesOptions(OptionsOf(state)), transactions);
  }

  // ---------------------------------------------------------------- totals

  /**
   * The view's totals (`filtered.filter(t => t.type === kind)` summed) are
   * `TypeTotal` of the shown list. The two split the shown transactions: together they are the sum
   * of every shown amount, and with positive amounts neither exceeds the
   * total of that type over the whole collection.
   */
  lemma ListTotalsSplitShown(transactions: seq<Transaction>, categories: seq<Category>, state: ListState)
    ensures var shown := FilteredList(transactions, categories, state);
            TypeTotal(shown, Income) + TypeTotal(shown, Expense) == SumAmounts(shown)
    ensures var shown := FilteredList(transactions, categories, state);
            PositiveAmounts(transactions) ==>
              && 0 <= TypeTotal(shown, Income) <= TypeTotal(transactions, Income)
              && 0 <= TypeTotal(shown, Expense) <= TypeTotal(transactions, Expense)
  {
    var shown := FilteredList(transactions, categories, state);
    TypeTotalsCoverAll(shown);
    if PositiveAmounts(transactions) {
      ShownTypeTotalBounded(transactions, categories, state, Income);
      ShownTypeTotalBounded(transactions, categories, state, Expense);
    }
  }

  lemma ShownTypeTotalBounded(transactions: seq<Transaction>, categories: seq<Category>, state: ListState, kind: TransactionType)
    requires PositiveAmounts(transactions)
    ensures 0 <= TypeTotal(FilteredList(transactions, categories, state), kind) <= TypeTotal(transactions, kind)
  {
    var f, g := ListPredicate(state, categories), HasType(kind);
    var both := (t: Transaction) => g(t) && f(t);
    FilterFuse(f, g, both, transactions);
    FilterFuse(g, f, both, transactions);
    var ofType := Filter(g, transactions);
    assert PositiveAmounts(ofType) by {
      forall i | 0 <= i < |ofType|
        ensures ofType[i].amount > 0
      {
        assert ofType[i] in transactions;
      }
    }
    FilteredSumBounded(f, ofType);
  }

  // ------------------------------------------------------------------ sort

  /** `[...filtered].sort(...)` by date: newest first for `Desc`, oldest first for `Asc`; ties keep list order. */
  function SortTransactions(filtered: seq<Transaction>, order: SortOrder): (r: seq<Transaction>)
    ensures multiset(r) == multiset(filtered)
    ensures order == Desc ==> forall i, j :: 0 <= i < j < |r| ==> r[i].date >= r[j].date
    ensures order == Asc ==> forall i, j :: 0 <= i < j < |r| ==> r[i].date <= r[j].date
  {
    var r := SortBy(TransactionDate, order == Desc, filtered);
    assert forall i, j :: 0 <= i < j < |r| ==> InOrder(TransactionDate, order == Desc, r[i], r[j]);
    r
  }

  /** Transactions with the same date keep the order they have in the filtered list. */
  lemma SortKeepsTiesInOrder(filtered: seq<Transaction>, order: SortOrder, date: int)
    ensures Filter(KeyIs(TransactionDate, date), SortTransactions(filtered, order))
         == Filter(KeyIs(TransactionDate, date), filtered)
  {
    SortIsStable(TransactionDate, order == Desc, filtered, date);
  }

  // -------------------------------------------------------------- grouping

  function IsOnDay(day: int): Transaction -> bool
  {
    (t: Transaction) => DayOf(t.date) == day
  }

  /** The local day of every transaction, in order. */
  function Days(transactions: seq<Transaction>): (r: seq<int>)
    ensures |r| == |transactions|
    ensures forall i :: 0 <= i < |transactions| ==> r[i] == DayOf(transactions[i].date)
  {
    if transactions == [] then []
    else Days(transactions[..|transactions| - 1]) + [DayOf(transactions[|transactions| - 1].date)]
  }

  /**
   * `groupedTransactions`: one group per local day in order of first
   * appearance, each holding that day's transactions in list order.
   */
  method GroupByDay(sorted: seq<Transaction>) returns (groups: OrderedMap<int, seq<Transaction>>)
    ensures groups.Valid()
    ensures groups.keys == Dedupe(Days(sorted))
    ensures forall d :: d in groups.entries ==> groups.entries[d] == Filter(IsOnDay(d), sorted)
  {
    groups := Empty<int, seq<Transaction>>();
    for i := 0 to |sorted|
      invariant groups.Valid()
      invariant GroupsUpToDate(groups, sorted[..i])
    {
      var transaction := sorted[i];
      var date := DayOf(transaction.date);
      GroupStep(groups, sorted, i);
      ghost var expected := AddToGroup(groups, date, transaction);
      if date !in groups.entries {
        groups := groups.Set(date, []);
      }
      groups := groups.Set(date, groups.entries[date] + [transaction]);
      assert groups == expected;
    }
    assert sorted[..|sorted|] == sorted;
  }

  ghost predicate GroupsUpToDate(groups: OrderedMap<int, seq<Transaction>>, done: seq<Transaction>)
  {
    && groups.keys == Dedupe(Days(done))
    && forall d :: d in groups.entries ==> groups.entries[d] == Filter(IsOnDay(d), done)
  }

  /** What one step of the grouping does to the groups: open the day's group if needed, then push. */
  ghost function AddToGroup(groups: OrderedMap<int, seq<Transaction>>, d: int, t: Transaction): OrderedMap<int, seq<Transaction>>
    requires groups.Valid()
  {
    var withDay := if d in groups.entries then groups else groups.Set(d, []);
    withDay.Set(d, withDay.entries[d] + [t])
  }

  lemma GroupStep(groups: OrderedMap<int, seq<Transaction>>, sorted: seq<Transaction>, i: int)
    requires 0 <= i < |sorted|
    requires groups.Valid()
    requires GroupsUpToDate(groups, sorted[..i])
    ensures GroupsUpToDate(AddToGroup(groups, DayOf(sorted[i].date), sorted[i]), sorted[..i + 1])
  {
    assert sorted[..i + 1] == sorted[..i] + [sorted[i]];
    DaysSnoc(sorted[..i], sorted[i]);
    if DayOf(sorted[i].date) in groups.entries {
      SameDayStep(groups, sorted[..i], sorted[i]);
    } else {
      NewDayStep(groups, sorted[..i], sorted[i]);
    }
  }

  lemma DaysSnoc(done: seq<Transaction>, t: Transaction)
    ensures Days(done + [t]) == Days(done) + [DayOf(t.date)]
  {
    assert (done + [t])[..|done|] == done;
  }

  /** A transaction of a day that already has a group is pushed onto it. */
  lemma SameDayStep(groups: OrderedMap<int, seq<Transaction>>, done: seq<Transaction>, t: Transaction)
    requires groups.Valid()
    requires GroupsUpToDate(groups, done)
    requires Days(done + [t]) == Days(done) + [DayOf(t.date)]
    requires DayOf(t.date) in groups.entries
    ensures GroupsUpToDate(AddToGroup(groups, DayOf(t.date), t), done + [t])
  {
    var d := DayOf(t.date);
    var m := AddToGroup(groups, d, t);
    assert m == groups.Set(d, groups.entries[d] + [t]);
    DedupeSnoc(Days(done), d);
    PushOntoDay(groups.entries, done, t);
  }

  lemma PushOntoDay(entries: map<int, seq<Transaction>>, done: seq<Transaction>, t: Transaction)
    requires DayOf(t.date) in entries
    requires forall e :: e in entries ==> entries[e] == Filter(IsOnDay(e), done)
    ensures var pushed := entries[DayOf(t.date) := entries[DayOf(t.date)] + [t]];
            forall e :: e in pushed ==> pushed[e] == Filter(IsOnDay(e), done + [t])
  {
    var d := DayOf(t.date);
    var pushed := entries[d := entries[d] + [t]];
    forall e | e in pushed
      ensures pushed[e] == Filter(IsOnDay(e), done + [t])
    {
      FilterSnoc(IsOnDay(e), done, t);
      if e != d {
        assert pushed[e] == entries[e];
      }
    }
  }

  /** A transaction of a day without a group opens that day's group, which then holds just it. */
  lemma NewDayStep(groups: OrderedMap<int, seq<Transaction>>, done: seq<Transaction>, t: Transaction)
    requires groups.Valid()
    requires GroupsUpToDate(groups, done)
    requires Days(done + [t]) == Days(done) + [DayOf(t.date)]
    requires DayOf(t.date) !in groups.entries
    ensures GroupsUpToDate(AddToGroup(groups, DayOf(t.date), t), done + [t])
  {
    var d := DayOf(t.date);
    var m := AddToGroup(groups, d, t);
    var withDay := groups.Set(d, []);
    assert withDay.entries == groups.entries[d := []];
    assert [] + [t] == [t];
    assert m == withDay.Set(d, [t]);
    DedupeSnoc(Days(done), d);
    NoGroupNoneBefore(done, d);
    OpenDay(groups.entries, done, t);
  }

  lemma OpenDay(entries: map<int, seq<Transaction>>, done: seq<Transaction>, t: Transaction)
    requires Filter(IsOnDay(DayOf(t.date)), done) == []
    requires forall e :: e in entries ==> entries[e] == Filter(IsOnDay(e), done)
    ensures var started := entries[DayOf(t.date) := []][DayOf(t.date) := [t]];
            forall e :: e in started ==> started[e] == Filter(IsOnDay(e), done + [t])
  {
    var d := DayOf(t.date);
    var withDay := entries[d := []][d := [t]];
    forall e | e in withDay
      ensures withDay[e] == Filter(IsOnDay(e), done + [t])
    {
      FilterSnoc(IsOnDay(e), done, t);
      if e != d {
        assert withDay[e] == entries[e];
      }
    }
  }

  /** A day that is not among the days of `done` has no transaction in `done`. */
  lemma NoGroupNoneBefore(done: seq<Transaction>, d: int)
    requires d !in Dedupe(Days(done))
    ensures Filter(IsOnDay(d), done) == []
  {
    forall u | u in done
      ensures !IsOnDay(d)(u)
    {
      var k :| 0 <= k < |done| && done[k] == u;
      assert Days(done)[k] == DayOf(u.date);
    }
    FilterNone(IsOnDay(d), done);
  }

  /**
   * The groups partition the list: every group holds only transactions of its
   * own day, in list order, and each transaction occurs in the group of its
   * day exactly as often as in the list.
   */
  lemma GroupsPartition(sorted: seq<Transaction>, groups: OrderedMap<int, seq<Transaction>>)
    requires groups.Valid()
    requires groups.keys == Dedupe(Days(sorted))
    requires forall d :: d in groups.entries ==> groups.entries[d] == Filter(IsOnDay(d), sorted)
    ensures forall d :: d in groups.entries ==>
              IsSubseq(groups.entries[d], sorted) && forall t :: t in groups.entries[d] ==> DayOf(t.date) == d
    ensures forall t :: t in sorted ==>
              DayOf(t.date) in groups.entries && multiset(groups.entries[DayOf(t.date)])[t] == multiset(sorted)[t]
  {
    forall d | d in groups.entries
      ensures IsSubseq(groups.entries[d], sorted)
    {
      FilterIsSubseq(IsOnDay(d), sorted);
    }
    forall t | t in sorted
      ensures DayOf(t.date) in groups.entries && multiset(groups.entries[DayOf(t.date)])[t] == multiset(sorted)[t]
    {
      var k :| 0 <= k < |sorted| && sorted[k] == t;
      assert Days(sorted)[k] == DayOf(t.date);
      FilterCount(IsOnDay(DayOf(t.date)), sorted, t);
    }
  }

  /** From a list sorted by date, the groups come out in the same order of days, each day once. */
  lemma GroupDaysFollowTheSort(sorted: seq<Transaction>, order: SortOrder)
    requires order == Desc ==> forall i, j :: 0 <= i < j < |sorted| ==> sorted[i].date >= sorted[j].date
    requires order == Asc ==> forall i, j :: 0 <= i < j < |sorted| ==> sorted[i].date <= sorted[j].date
    ensures var keys := Dedupe(Days(sorted));
            forall i, j :: 0 <= i < j < |keys| ==> if order == Desc then keys[i] > keys[j] else keys[i] < keys[j]
  {
    var days := Days(sorted);
    forall i, j | 0 <= i < j < |days|
      ensures Precedes(order == Desc, false, days[i], days[j])
    {
      if order == Desc {
        DayOfMonotone(sorted[j].date, sorted[i].date);
      } else {
        DayOfMonotone(sorted[i].date, sorted[j].date);
      }
    }
    DedupeOfOrdered(days, order == Desc);
  }

  /** `a` comes no later than `b` in the order; `strict` excludes ties. */
  predicate Precedes(descending: bool, strict: bool, a: int, b: int)
  {
    if descending then (if strict then a > b else a >= b) else (if strict then a < b else a <= b)
  }

  /** De-duplicating an ordered sequence leaves it strictly ordered. */
  lemma {:induction false} DedupeOfOrdered(s: seq<int>, descending: bool)
    requires forall i, j :: 0 <= i < j < |s| ==> Precedes(descending, false, s[i], s[j])
    ensures forall i, j :: 0 <= i < j < |Dedupe(s)| ==> Precedes(descending, true, Dedupe(s)[i], Dedupe(s)[j])
    decreases |s|
  {
    if s != [] {
      var init, last := s[..|s| - 1], s[|s| - 1];
      assert forall i, j :: 0 <= i < j < |init| ==> init[i] == s[i] && init[j] == s[j];
      DedupeOfOrdered(init, descending);
      var d := Dedupe(init);
      assert s == init + [last];
      DedupeSnoc(init, last);
      if last !in d {
        forall x | x in d
          ensures Precedes(descending, true, x, last)
        {
          assert x in init;
          var k :| 0 <= k < |init| && init[k] == x;
          assert s[k] == x;
          assert Precedes(descending, false, s[k], s[|s| - 1]);
        }
        AppendAfterAll(d, last, descending);
      }
    }
  }

  /** A strictly ordered sequence stays so when a value that follows all of it is appended. */
  lemma AppendAfterAll(d: seq<int>, last: int, descending: bool)
    requires forall i, j :: 0 <= i < j < |d| ==> Precedes(descending, true, d[i], d[j])
    requires forall x :: x in d ==> Precedes(descending, true, x, last)
    ensures forall i, j :: 0 <= i < j < |d + [last]| ==> Precedes(descending, true, (d + [last])[i], (d + [last])[j])
  {
    var r := d + [last];
    forall i, j | 0 <= i < j < |r|
      ensures Precedes(descending, true, r[i], r[j])
    {
      assert r[i] == d[i] && d[i] in d;
      if j < |d| {
        assert r[j] == d[j];
      } else {
        assert r[j] == last;
      }
    }
  }

  // ------------------------------------------------------ filter-panel state

  function ToggleTypeFilter(state: ListState, kind: TransactionType): (r: ListState)
    ensures r == state.(typeFilter := Toggle(state.typeFilter, kind))
    ensures kind in r.typeFilter <==> kind !in state.typeFilter
  {
    state.(typeFilter := Toggle(state.typeFilter, kind))
  }

  function ToggleCategoryFilter(state: ListState, categoryId: string): (r: ListState)
    ensures r == state.(categoryFilter := Toggle(state.categoryFilter, categoryId))
    ensures categoryId in r.categoryFilter <==> categoryId !in state.categoryFilter
  {
    state.(categoryFilter := Toggle(state.categoryFilter, categoryId))
  }

  /** `resetFilters`: clears the search, both lists and both bounds; the sort order is kept. */
  function ResetFilters(state: ListState): (r: ListState)
    ensures r == InitialState.(sortOrder := state.sortOrder)
  {
    ListState("", [], [], state.sortOrder, DateRange(None, None))
  }

  /** After a reset the view shows every transaction. */
  lemma {:induction false} ResetShowsEverything(transactions: seq<Transaction>, categories: seq<Category>, state: ListState)
    ensures FilteredList(transactions, categories, ResetFilters(state)) == transactions
  {
    FilterKeepsAll(ListPredicate(ResetFilters(state), categories), transactions);
  }

  /** The `useState` defaults: the list opens newest first and shows every transaction. */
  lemma InitialViewShowsEverything(transactions: seq<Transaction>, categories: seq<Category>)
    ensures InitialState.sortOrder == Desc
    ensures FilteredList(transactions, categories, InitialState) == transactions
  {
    assert ResetFilters(InitialState) == InitialState;
    ResetShowsEverything(transactions, categories, InitialState);
  }

  function ToggleSortOrder(state: ListState): (r: ListState)
    ensures r.sortOrder != state.sortOrder
    ensures r == state.(sortOrder := r.sortOrder)
  {
    state.(sortOrder := if state.sortOrder == Desc then Asc else Desc)
  }

  lemma ToggleSortOrderTwice(state: ListState)
    ensures ToggleSortOrder(ToggleSortOrder(state)) == state
  {
  }
}
