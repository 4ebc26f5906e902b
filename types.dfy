/**
 * The records of the application (src/types/index.ts). A transaction's `date`
 * is the instant it denotes, in milliseconds since the epoch; an amount is the
 * record's `amount` itself, restricted to whole numbers. The `type` fields are
 * named `kind`, since `type` is a Dafny keyword.
 */
module Types {
  import opened Wrappers
  import opened JsArray

  datatype TransactionType = Income | Expense

  datatype Category = Category(id: string, name: string, kind: TransactionType, icon: Option<string>)

  datatype Transaction = Transaction(
    id: string,
    amount: int,
    date: int,
    kind: TransactionType,
    categoryId: string,
    notes: string)

  /** Either end may be absent (`undefined`), meaning "unbounded". */
  datatype DateRange = DateRange(from: Option<int>, to: Option<int>)

  datatype CategoryAmount = CategoryAmount(categoryId: string, amount: int)

  datatype TransactionSummary = TransactionSummary(
    totalIncome: int,
    totalExpense: int,
    netAmount: int,
    categorySummary: seq<CategoryAmount>)

  /** An empty `types` or `categoryIds` list places no restriction on that axis. */
  datatype FilterOptions = FilterOptions(
    dateRange: DateRange,
    types: seq<TransactionType>,
    categoryIds: seq<string>)

  /** Amounts are positive: the entry form rejects anything else. */
  ghost predicate PositiveAmounts(ts: seq<Transaction>)
  {
    forall i :: 0 <= i < |ts| ==> ts[i].amount > 0
  }

  /** The `id` of every category, in order. */
  function CategoryIds(categories: seq<Category>): (ids: seq<string>)
    ensures |ids| == |categories|
    ensures forall i :: 0 <= i < |categories| ==> ids[i] == categories[i].id
  {
    if categories == [] then []
    else [categories[0].id] + CategoryIds(categories[1..])
  }

  lemma IdsAppend(categories: seq<Category>, c: Category)
    ensures CategoryIds(categories + [c]) == CategoryIds(categories) + [c.id]
  {
    Extensionality(CategoryIds(categories + [c]), CategoryIds(categories) + [c.id]);
  }

  lemma DistinctIds(categories: seq<Category>)
    requires forall i, j :: 0 <= i < j < |categories| ==> categories[i].id != categories[j].id
    ensures Distinct(CategoryIds(categories))
  {
  }

  function TransactionDate(t: Transaction): int
  {
    t.date
  }
}
