/**
 * The page that owns the collection (src/pages/Index.tsx): saving a
 * transaction from the form (an edit when its id is already present, an
 * addition otherwise), deleting one by id, and the category bootstrap.
 * The React state updates and the storage writes around them are left out.
 */
module IndexPage {
  import opened Wrappers
  import opened JsArray
  import opened Types
  import opened TransactionUtils

  /** `transactions.some(t => t.id === id)`. */
  predicate SomeHasId(transactions: seq<Transaction>, id: string)
  {
    exists i :: 0 <= i < |transactions| && transactions[i].id == id
  }

  /** No two transactions share an id. */
  ghost predicate UniqueIds(transactions: seq<Transaction>)
  {
    forall i, j :: 0 <= i < j < |transactions| ==> transactions[i].id != transactions[j].id
  }

  /** `transactions.map(t => t.id === saved.id ? saved : t)`. */
  function ReplaceById(transactions: seq<Transaction>, saved: Transaction): (r: seq<Transaction>)
    ensures |r| == |transactions|
    ensures forall i :: 0 <= i < |r| ==> r[i] == if transactions[i].id == saved.id then saved else transactions[i]
  {
    if transactions == [] then []
    else
      [if transactions[0].id == saved.id then saved else transactions[0]] + ReplaceById(transactions[1..], saved)
  }

  /**
   * `handleSaveTransaction`: an edit replaces every transaction with the
   * saved id and keeps everything else in place; an addition appends. Either
   * way the saved transaction is in the result and is the only one with its id.
   */
  function SaveTransaction(transactions: seq<Transaction>, saved: Transaction): (r: seq<Transaction>)
    ensures SomeHasId(transactions, saved.id) ==>
              && |r| == |transactions|
              && forall i :: 0 <= i < |r| ==> r[i] == if transactions[i].id == saved.id then saved else transactions[i]
    ensures !SomeHasId(transactions, saved.id) ==> r == transactions + [saved]
    ensures saved in r
    ensures forall t :: t in r && t.id == saved.id ==> t == saved
  {
    if SomeHasId(transactions, saved.id) then
      var r := ReplaceById(transactions, saved);
      var i :| 0 <= i < |transactions| && transactions[i].id == saved.id;
      assert r[i] == saved;
      r
    else
      var r := transactions + [saved];
      assert r[|transactions|] == saved;
      r
  }

  function IdIsNot(id: string): Transaction -> bool
  {
    (t: Transaction) => t.id != id
  }

  /** `handleDeleteTransaction`: drops exactly the transactions with the id, keeping the order of the rest. */
  function DeleteTransaction(transactions: seq<Transaction>, id: string): (r: seq<Transaction>)
    ensures IsSubseq(r, transactions)
    ensures forall t :: t in r <==> t in transactions && t.id != id
  {
    FilterIsSubseq(IdIsNot(id), transactions);
    Filter(IdIsNot(id), transactions)
  }

  /** Adding a transaction and then deleting it gives back the collection as it was. */
  lemma {:induction false} DeleteUndoesAdd(transactions: seq<Transaction>, saved: Transaction)
    requires !SomeHasId(transactions, saved.id)
    ensures DeleteTransaction(SaveTransaction(transactions, saved), saved.id) == transactions
  {
    FilterAppend(IdIsNot(saved.id), transactions, [saved]);
    assert Filter(IdIsNot(saved.id), [saved]) == Filter(IdIsNot(saved.id), [] + [saved]);
    forall t | t in transactions
      ensures IdIsNot(saved.id)(t)
    {
      var i :| 0 <= i < |transactions| && transactions[i] == t;
    }
    FilterKeepsAll(IdIsNot(saved.id), transactions);
  }

  /** Deleting an id after saving under it is the same as deleting it straight away. */
  lemma DeleteAfterSave(transactions: seq<Transaction>, saved: Transaction)
    ensures DeleteTransaction(SaveTransaction(transactions, saved), saved.id) == DeleteTransaction(transactions, saved.id)
  {
    if SomeHasId(transactions, saved.id) {
      ReplacedAreDeleted(transactions, saved);
    } else {
      FilterAppend(IdIsNot(saved.id), transactions, [saved]);
      assert Filter(IdIsNot(saved.id), [saved]) == Filter(IdIsNot(saved.id), [] + [saved]);
    }
  }

  lemma {:induction false} ReplacedAreDeleted(transactions: seq<Transaction>, saved: Transaction)
    ensures Filter(IdIsNot(saved.id), ReplaceById(transactions, saved)) == Filter(IdIsNot(saved.id), transactions)
    decreases |transactions|
  {
    if transactions != [] {
      var head, tail := transactions[0], transactions[1..];
      assert transactions == [head] + tail;
      var r := ReplaceById(transactions, saved);
      assert r == [r[0]] + ReplaceById(tail, saved);
      ReplacedAreDeleted(tail, saved);
      FilterCons(IdIsNot(saved.id), r[0], ReplaceById(tail, saved));
      FilterCons(IdIsNot(saved.id), head, tail);
    }
  }

  /** Saving the same transaction again changes nothing. */
  lemma SaveIsIdempotent(transactions: seq<Transaction>, saved: Transaction)
    ensures SaveTransaction(SaveTransaction(transactions, saved), saved) == SaveTransaction(transactions, saved)
  {
    var once := SaveTransaction(transactions, saved);
    assert saved in once;
    var k :| 0 <= k < |once| && once[k] == saved;
    assert SomeHasId(once, saved.id);
    Extensionality(SaveTransaction(once, saved), once);
  }

  /** Saving keeps ids unique. */
  lemma SaveKeepsIdsUnique(transactions: seq<Transaction>, saved: Transaction)
    requires UniqueIds(transactions)
    ensures UniqueIds(SaveTransaction(transactions, saved))
  {
    var r := SaveTransaction(transactions, saved);
    forall i, j | 0 <= i < j < |r|
      ensures r[i].id != r[j].id
    {
      if !SomeHasId(transactions, saved.id) && j == |transactions| {
        assert r[i] == transactions[i];
      }
    }
  }

  /** Deleting keeps ids unique. */
  lemma {:induction false} DeleteKeepsIdsUnique(transactions: seq<Transaction>, id: string)
    requires UniqueIds(transactions)
    ensures UniqueIds(DeleteTransaction(transactions, id))
    decreases |transactions|
  {
    if transactions != [] {
      var init, last := transactions[..|transactions| - 1], transactions[|transactions| - 1];
      assert transactions == init + [last];
      assert UniqueIds(init) by {
        forall i, j | 0 <= i < j < |init|
          ensures init[i].id != init[j].id
        {
          assert init[i] == transactions[i] && init[j] == transactions[j];
        }
      }
      DeleteKeepsIdsUnique(init, id);
      var r0 := Filter(IdIsNot(id), init);
      if last.id != id {
        var r := r0 + [last];
        forall i, j | 0 <= i < j < |r|
          ensures r[i].id != r[j].id
        {
          if j == |r0| {
            assert r[i] in r0;
            var k :| 0 <= k < |init| && init[k] == r[i];
            assert transactions[k] == r[i];
          } else {
            assert r[i] == r0[i] && r[j] == r0[j];
          }
        }
      }
    }
  }

  /** The bootstrap: an empty category list is replaced by the default categories. */
  function InitialCategories(loaded: seq<Category>): (r: seq<Category>)
    ensures |loaded| == 0 ==> r == DefaultCategories
    ensures |loaded| > 0 ==> r == loaded
  {
    if |loaded| == 0 then DefaultCategories else loaded
  }

  /** Whatever storage holds, the page starts with at least one category. */
  lemma CategoriesNeverStartEmpty(parsed: Option<seq<Category>>)
    ensures |InitialCategories(LoadCategories(parsed))| > 0
  {
    DefaultCategoriesKinds();
  }
}
