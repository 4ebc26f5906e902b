/**
 * The JavaScript Array operations the application is built from, as functions
 * on sequences: `filter`, `findIndex`, first-occurrence de-duplication (what a
 * `Map` does to its keys) and a stable `sort`.
 */
module JsArray {

  /** `r` is obtained from `s` by deleting elements: order kept, nothing added or changed. */
  ghost predicate IsSubseq<T(!new)>(r: seq<T>, s: seq<T>)
    decreases |r| + |s|
  {
    if r == [] then true
    else if s == [] then false
    else (r[|r| - 1] == s[|s| - 1] && IsSubseq(r[..|r| - 1], s[..|s| - 1]))
         || IsSubseq(r, s[..|s| - 1])
  }

  /** No element occurs twice. */
  ghost predicate Distinct<T(!new)>(s: seq<T>)
  {
    forall i, j :: 0 <= i < j < |s| ==> s[i] != s[j]
  }

  /**
   * `s.filter(f)`: the in-order subsequence of the elements satisfying `f`, each
   * with its multiplicity in `s`.
   */
  function Filter<T(!new)>(f: T -> bool, s: seq<T>): (r: seq<T>)
    ensures |r| <= |s|
    ensures forall x :: x in r <==> x in s && f(x)
  {
    if s == [] then []
    else
      var init, last := s[..|s| - 1], s[|s| - 1];
      assert s == init + [last];
      var r0 := Filter(f, init);
      if f(last) then r0 + [last] else r0
  }

  lemma FilterSnoc<T(!new)>(f: T -> bool, s: seq<T>, x: T)
    ensures Filter(f, s + [x]) == if f(x) then Filter(f, s) + [x] else Filter(f, s)
  {
    assert (s + [x])[..|s|] == s;
  }

  /** A filter that rejects every element gives the empty list. */
  lemma FilterNone<T(!new)>(f: T -> bool, s: seq<T>)
    requires forall x :: x in s ==> !f(x)
    ensures Filter(f, s) == []
  {
  }

  /** `filter` keeps the order of what it keeps and adds nothing. */
  lemma {:induction false} FilterIsSubseq<T(!new)>(f: T -> bool, s: seq<T>)
    ensures IsSubseq(Filter(f, s), s)
    decreases |s|
  {
    if s != [] {
      assert s == s[..|s| - 1] + [s[|s| - 1]];
      FilterIsSubseq(f, s[..|s| - 1]);
    }
  }

  /** `filter` keeps every copy of a kept element and no copy of a rejected one. */
  lemma {:induction false} FilterCount<T(!new)>(f: T -> bool, s: seq<T>, x: T)
    ensures multiset(Filter(f, s))[x] == if f(x) then multiset(s)[x] else 0
    decreases |s|
  {
    if s != [] {
      assert s == s[..|s| - 1] + [s[|s| - 1]];
      FilterCount(f, s[..|s| - 1], x);
    }
  }

  lemma {:induction false} IsSubseqRefl<T(!new)>(s: seq<T>)
    ensures IsSubseq(s, s)
    decreases |s|
  {
    if s != [] {
      IsSubseqRefl(s[..|s| - 1]);
    }
  }

  lemma {:induction false} IsSubseqTrans<T(!new)>(a: seq<T>, b: seq<T>, c: seq<T>)
    requires IsSubseq(a, b) && IsSubseq(b, c)
    ensures IsSubseq(a, c)
    decreases |a| + |b| + |c|
  {
    if a != [] {
      assert b != [] && c != [];
      if IsSubseq(b, c[..|c| - 1]) {
        IsSubseqTrans(a, b, c[..|c| - 1]);
      } else if a[|a| - 1] == b[|b| - 1] && IsSubseq(a[..|a| - 1], b[..|b| - 1]) {
        IsSubseqTrans(a[..|a| - 1], b[..|b| - 1], c[..|c| - 1]);
      } else {
        IsSubseqTrans(a, b[..|b| - 1], c[..|c| - 1]);
      }
    }
  }

  /** Filtering distributes over concatenation: `filter` looks at one element at a time. */
  lemma {:induction false} FilterAppend<T(!new)>(f: T -> bool, a: seq<T>, b: seq<T>)
    ensures Filter(f, a + b) == Filter(f, a) + Filter(f, b)
    decreases |b|
  {
    if b != [] {
      var b0 := b[..|b| - 1];
      assert a + b == (a + b0) + [b[|b| - 1]];
      assert (a + b)[..|a + b| - 1] == a + b0;
      FilterAppend(f, a, b0);
    } else {
      assert a + b == a;
    }
  }

  /** Filtering a one-element extension at the front. */
  lemma FilterCons<T(!new)>(f: T -> bool, x: T, s: seq<T>)
    ensures Filter(f, [x] + s) == (if f(x) then [x] else []) + Filter(f, s)
    ensures f(x) ==> Filter(f, [x] + s) == [x] + Filter(f, s)
    ensures !f(x) ==> Filter(f, [x] + s) == Filter(f, s)
  {
    FilterAppend(f, [x], s);
    assert Filter(f, [x]) == Filter(f, [] + [x]);
  }

  /** A filter that rejects nothing is the identity. */
  lemma {:induction false} FilterKeepsAll<T(!new)>(f: T -> bool, s: seq<T>)
    requires forall x :: x in s ==> f(x)
    ensures Filter(f, s) == s
    decreases |s|
  {
    if s != [] {
      assert s == s[..|s| - 1] + [s[|s| - 1]];
      FilterKeepsAll(f, s[..|s| - 1]);
    }
  }

  /** Filters that agree on every element give the same result. */
  lemma {:induction false} FilterSame<T(!new)>(f: T -> bool, g: T -> bool, s: seq<T>)
    requires forall x :: x in s ==> f(x) == g(x)
    ensures Filter(f, s) == Filter(g, s)
    decreases |s|
  {
    if s != [] {
      assert s == s[..|s| - 1] + [s[|s| - 1]];
      FilterSame(f, g, s[..|s| - 1]);
    }
  }

  /** Two filters in a row are one filter by the conjunction. */
  lemma {:induction false} FilterFuse<T(!new)>(f: T -> bool, g: T -> bool, h: T -> bool, s: seq<T>)
    requires forall x :: h(x) == (f(x) && g(x))
    ensures Filter(h, s) == Filter(g, Filter(f, s))
    decreases |s|
  {
    if s != [] {
      var init, last := s[..|s| - 1], s[|s| - 1];
      assert s == init + [last];
      FilterFuse(f, g, h, init);
      if f(last) {
        FilterAppend(g, Filter(f, init), [last]);
        assert Filter(g, [last]) == Filter(g, [] + [last]);
      }
    }
  }

  /** `s.findIndex(e => e == x)`: the first position of `x`, or -1. */
  function IndexOf<T(==)>(s: seq<T>, x: T): (r: int)
    ensures -1 <= r < |s|
    ensures r == -1 <==> x !in s
    ensures r != -1 ==> s[r] == x && forall j :: 0 <= j < r ==> s[j] != x
  {
    if s == [] then -1
    else if s[0] == x then 0
    else
      var k := IndexOf(s[1..], x);
      if k == -1 then -1 else k + 1
  }

  /** The elements of `s` in order of first occurrence, each once. */
  function Dedupe<T(==,!new)>(s: seq<T>): (r: seq<T>)
    ensures Distinct(r)
    ensures forall x :: x in r <==> x in s
  {
    if s == [] then []
    else
      var d := Dedupe(s[..|s| - 1]);
      assert s == s[..|s| - 1] + [s[|s| - 1]];
      if s[|s| - 1] in d then d else d + [s[|s| - 1]]
  }

  lemma DedupeSnoc<T(!new)>(s: seq<T>, x: T)
    ensures Dedupe(s + [x]) == if x in Dedupe(s) then Dedupe(s) else Dedupe(s) + [x]
  {
    assert (s + [x])[..|s|] == s;
  }

  /** Of any two elements of `r`, the one that occurs first in `s` comes first. */
  ghost predicate InFirstOccurrenceOrder<T(!new)>(s: seq<T>, r: seq<T>)
  {
    forall i, j :: 0 <= i < j < |r| ==> IndexOf(s, r[i]) < IndexOf(s, r[j])
  }

  /** `Dedupe` keeps the order of first occurrence. */
  lemma {:induction false} DedupeKeepsFirstOccurrenceOrder<T(!new)>(s: seq<T>)
    ensures InFirstOccurrenceOrder(s, Dedupe(s))
    decreases |s|
  {
    if s != [] {
      var init, x := s[..|s| - 1], s[|s| - 1];
      assert s == init + [x];
      DedupeKeepsFirstOccurrenceOrder(init);
      DedupeSnoc(init, x);
      OrderSnoc(init, x, Dedupe(init));
    }
  }

  lemma OrderSnoc<T(!new)>(init: seq<T>, x: T, d: seq<T>)
    requires forall y :: y in d <==> y in init
    requires InFirstOccurrenceOrder(init, d)
    ensures InFirstOccurrenceOrder(init + [x], if x in d then d else d + [x])
  {
    var s := init + [x];
    forall y | y in d
      ensures IndexOf(s, y) == IndexOf(init, y)
    {
      IndexOfSnoc(init, x, y);
    }
    if x !in d {
      assert IndexOf(s, x) == |init|;
      var r := d + [x];
      forall i, j | 0 <= i < j < |r|
        ensures IndexOf(s, r[i]) < IndexOf(s, r[j])
      {
        assert r[i] == d[i] && r[i] in d;
        if j < |d| {
          assert r[j] == d[j] && r[j] in d;
        }
      }
    }
  }

  /** Appending an element does not move the first occurrence of an element already present. */
  lemma IndexOfSnoc<T>(s: seq<T>, x: T, y: T)
    requires y in s
    ensures IndexOf(s + [x], y) == IndexOf(s, y)
  {
    var k := IndexOf(s, y);
    assert (s + [x])[k] == y;
  }

  /** The comparator of a sort by an integer key: ties count as being in order. */
  predicate InOrder<T(!new)>(key: T -> int, descending: bool, a: T, b: T)
  {
    if descending then key(a) >= key(b) else key(a) <= key(b)
  }

  ghost predicate SortedBy<T(!new)>(key: T -> int, descending: bool, s: seq<T>)
  {
    forall i, j :: 0 <= i < j < |s| ==> InOrder(key, descending, s[i], s[j])
  }

  /** The elements whose key is `v`: stability is a statement about these. */
  function KeyIs<T(!new)>(key: T -> int, v: int): T -> bool
  {
    x => key(x) == v
  }

  lemma SortedCons<T(!new)>(key: T -> int, descending: bool, x: T, s: seq<T>)
    requires SortedBy(key, descending, s)
    requires forall y :: y in s ==> InOrder(key, descending, x, y)
    ensures SortedBy(key, descending, [x] + s)
  {
    var r := [x] + s;
    forall i, j | 0 <= i < j < |r|
      ensures InOrder(key, descending, r[i], r[j])
    {
      assert r[j] == s[j - 1];
      if i > 0 {
        assert r[i] == s[i - 1];
      }
    }
  }

  /** Puts `x` before the first element it is in order with. */
  function Insert<T(!new)>(key: T -> int, descending: bool, x: T, s: seq<T>): (r: seq<T>)
    requires SortedBy(key, descending, s)
    ensures SortedBy(key, descending, r)
    ensures multiset(r) == multiset(s) + multiset{x}
    ensures |r| == |s| + 1
  {
    if s == [] || InOrder(key, descending, x, s[0]) then
      InOrderWithAll(key, descending, x, s);
      SortedCons(key, descending, x, s);
      [x] + s
    else
      var rest := Insert(key, descending, x, s[1..]);
      assert s == [s[0]] + s[1..];
      HeadBeforeRest(key, descending, x, s, rest);
      SortedCons(key, descending, s[0], rest);
      [s[0]] + rest
  }

  /** An element in order with the head of a sorted sequence is in order with all of it. */
  lemma InOrderWithAll<T(!new)>(key: T -> int, descending: bool, x: T, s: seq<T>)
    requires SortedBy(key, descending, s)
    requires s == [] || InOrder(key, descending, x, s[0])
    ensures forall y :: y in s ==> InOrder(key, descending, x, y)
  {
    forall y | y in s
      ensures InOrder(key, descending, x, y)
    {
      var k :| 0 <= k < |s| && s[k] == y;
      assert k == 0 || InOrder(key, descending, s[0], s[k]);
    }
  }

  /** When `x` goes after the head, the head is in order with everything that follows it. */
  lemma HeadBeforeRest<T(!new)>(key: T -> int, descending: bool, x: T, s: seq<T>, rest: seq<T>)
    requires SortedBy(key, descending, s)
    requires s != [] && !InOrder(key, descending, x, s[0])
    requires multiset(rest) == multiset(s[1..]) + multiset{x}
    ensures forall y :: y in rest ==> InOrder(key, descending, s[0], y)
  {
    forall y | y in rest
      ensures InOrder(key, descending, s[0], y)
    {
      assert y in multiset(rest);
      if y != x {
        assert y in multiset(s[1..]);
        var k :| 0 <= k < |s[1..]| && s[1..][k] == y;
        assert s[k + 1] == y;
      }
    }
  }

  /**
   * `s.sort(cmp)` for the comparator that orders by `key` (ascending or
   * descending): ECMAScript requires `sort` to be stable, and `StableSortIsUnique`
   * shows there is only one such result.
   */
  function SortBy<T(!new)>(key: T -> int, descending: bool, s: seq<T>): (r: seq<T>)
    ensures SortedBy(key, descending, r)
    ensures multiset(r) == multiset(s)
    ensures |r| == |s|
  {
    if s == [] then []
    else
      assert s == [s[0]] + s[1..];
      Insert(key, descending, s[0], SortBy(key, descending, s[1..]))
  }

  lemma {:induction false} InsertIsStable<T(!new)>(key: T -> int, descending: bool, x: T, s: seq<T>, v: int)
    requires SortedBy(key, descending, s)
    ensures Filter(KeyIs(key, v), Insert(key, descending, x, s))
         == Filter(KeyIs(key, v), [x] + s)
    decreases |s|
  {
    if s != [] && !InOrder(key, descending, x, s[0]) {
      var f := KeyIs(key, v);
      var tail := s[1..];
      var rest := Insert(key, descending, x, tail);
      assert s == [s[0]] + tail;
      InsertIsStable(key, descending, x, tail, v);
      FilterCons(f, s[0], rest);
      FilterCons(f, x, tail);
      FilterCons(f, s[0], tail);
      FilterCons(f, x, s);
      if f(s[0]) {
        assert !f(x);
        calc {
          Filter(f, [s[0]] + rest);
          [s[0]] + Filter(f, rest);
          [s[0]] + Filter(f, [x] + tail);
          [s[0]] + Filter(f, tail);
          Filter(f, s);
          Filter(f, [x] + s);
        }
      } else {
        calc {
          Filter(f, [s[0]] + rest);
          Filter(f, rest);
          Filter(f, [x] + tail);
          Filter(f, [x] + s);
        }
      }
    }
  }

  /** Sorting keeps the relative order of the elements with any one key. */
  lemma {:induction false} SortIsStable<T(!new)>(key: T -> int, descending: bool, s: seq<T>, v: int)
    ensures Filter(KeyIs(key, v), SortBy(key, descending, s)) == Filter(KeyIs(key, v), s)
    decreases |s|
  {
    if s != [] {
      var f := KeyIs(key, v);
      var sorted := SortBy(key, descending, s[1..]);
      assert s == [s[0]] + s[1..];
      calc {
        Filter(f, SortBy(key, descending, s));
        Filter(f, Insert(key, descending, s[0], sorted));
        { InsertIsStable(key, descending, s[0], sorted, v); }
        Filter(f, [s[0]] + sorted);
        { FilterCons(f, s[0], sorted); FilterCons(f, s[0], s[1..]); SortIsStable(key, descending, s[1..], v); }
        Filter(f, s);
      }
    }
  }

  /** Every element of a sequence is in some key class, so equal classes mean equal contents. */
  lemma SameClassesSameMultiset<T(!new)>(key: T -> int, a: seq<T>, b: seq<T>)
    requires forall v :: Filter(KeyIs(key, v), a) == Filter(KeyIs(key, v), b)
    ensures multiset(a) == multiset(b)
  {
    forall x
      ensures multiset(a)[x] == multiset(b)[x]
    {
      var v := key(x);
      assert Filter(KeyIs(key, v), a) == Filter(KeyIs(key, v), b);
      FilterCount(KeyIs(key, v), a, x);
      FilterCount(KeyIs(key, v), b, x);
    }
  }

  /**
   * Any result of a stable sort is the one `SortBy` computes: a sorted sequence
   * whose every key class is in input order is determined by its input.
   */
  lemma {:induction false} StableSortIsUnique<T(!new)>(key: T -> int, descending: bool, s: seq<T>, r: seq<T>)
    requires SortedBy(key, descending, r)
    requires forall v :: Filter(KeyIs(key, v), r) == Filter(KeyIs(key, v), s)
    ensures r == SortBy(key, descending, s)
  {
    var q := SortBy(key, descending, s);
    forall v
      ensures Filter(KeyIs(key, v), r) == Filter(KeyIs(key, v), q)
    {
      SortIsStable(key, descending, s, v);
    }
    SortedWithSameClassesAreEqual(key, descending, r, q);
  }

  /** The heads of two sorted arrangements of the same elements carry the same key. */
  lemma HeadsShareKey<T(!new)>(key: T -> int, descending: bool, r: seq<T>, q: seq<T>)
    requires SortedBy(key, descending, r) && SortedBy(key, descending, q)
    requires multiset(r) == multiset(q) && r != []
    ensures q != [] && key(r[0]) == key(q[0])
  {
    assert r[0] in multiset(q);
    assert q != [];
    assert q[0] in multiset(r);
    var i :| 0 <= i < |r| && r[i] == q[0];
    var j :| 0 <= j < |q| && q[j] == r[0];
    assert i == 0 || InOrder(key, descending, r[0], r[i]);
    assert j == 0 || InOrder(key, descending, q[0], q[j]);
  }

  lemma {:induction false} SortedWithSameClassesAreEqual<T(!new)>(key: T -> int, descending: bool, r: seq<T>, q: seq<T>)
    requires SortedBy(key, descending, r) && SortedBy(key, descending, q)
    requires forall v :: Filter(KeyIs(key, v), r) == Filter(KeyIs(key, v), q)
    ensures r == q
    decreases |r|
  {
    SameClassesSameMultiset(key, r, q);
    if r == [] {
      assert |multiset(q)| == 0;
    } else {
      HeadsShareKey(key, descending, r, q);
      HeadsAreEqual(key, r, q);
      TailsShareClasses(key, r, q);
      SortedTail(key, descending, r);
      SortedTail(key, descending, q);
      SortedWithSameClassesAreEqual(key, descending, r[1..], q[1..]);
      forall i | 0 <= i < |r|
        ensures r[i] == q[i]
      {
        if i > 0 {
          assert r[i] == r[1..][i - 1] && q[i] == q[1..][i - 1];
        }
      }
      Extensionality(r, q);
    }
  }

  /** The heads carry the same key, so they head the same class and are the same element. */
  lemma HeadsAreEqual<T(!new)>(key: T -> int, r: seq<T>, q: seq<T>)
    requires r != [] && q != [] && key(r[0]) == key(q[0])
    requires Filter(KeyIs(key, key(r[0])), r) == Filter(KeyIs(key, key(r[0])), q)
    ensures r[0] == q[0]
  {
    var k := key(r[0]);
    assert r == [r[0]] + r[1..] && q == [q[0]] + q[1..];
    FilterCons(KeyIs(key, k), r[0], r[1..]);
    FilterCons(KeyIs(key, k), q[0], q[1..]);
    assert Filter(KeyIs(key, k), r)[0] == r[0];
    assert Filter(KeyIs(key, k), q)[0] == q[0];
  }

  lemma TailsShareClasses<T(!new)>(key: T -> int, r: seq<T>, q: seq<T>)
    requires r != [] && q != [] && r[0] == q[0]
    requires forall v :: Filter(KeyIs(key, v), r) == Filter(KeyIs(key, v), q)
    ensures forall v :: Filter(KeyIs(key, v), r[1..]) == Filter(KeyIs(key, v), q[1..])
  {
    forall v
      ensures Filter(KeyIs(key, v), r[1..]) == Filter(KeyIs(key, v), q[1..])
    {
      DropCommonHead(KeyIs(key, v), r, q);
    }
  }

  /** Sequences with the same first element and the same filtered result also agree on their tails. */
  lemma DropCommonHead<T(!new)>(f: T -> bool, r: seq<T>, q: seq<T>)
    requires r != [] && q != [] && r[0] == q[0]
    requires Filter(f, r) == Filter(f, q)
    ensures Filter(f, r[1..]) == Filter(f, q[1..])
  {
    assert r == [r[0]] + r[1..] && q == [q[0]] + q[1..];
    var head := if f(r[0]) then [r[0]] else [];
    FilterCons(f, r[0], r[1..]);
    FilterCons(f, q[0], q[1..]);
    assert head + Filter(f, r[1..]) == head + Filter(f, q[1..]);
    assert Filter(f, r[1..]) == (head + Filter(f, r[1..]))[|head|..];
    assert Filter(f, q[1..]) == (head + Filter(f, q[1..]))[|head|..];
  }

  lemma SortedTail<T(!new)>(key: T -> int, descending: bool, s: seq<T>)
    requires SortedBy(key, descending, s) && s != []
    ensures SortedBy(key, descending, s[1..])
  {
    forall i, j | 0 <= i < j < |s| - 1
      ensures InOrder(key, descending, s[1..][i], s[1..][j])
    {
      assert s[1..][i] == s[i + 1] && s[1..][j] == s[j + 1];
    }
  }

  /** Two sequences with the same elements at every index are equal. */
  lemma Extensionality<T>(a: seq<T>, b: seq<T>)
    requires |a| == |b| && forall i :: 0 <= i < |a| ==> a[i] == b[i]
    ensures a == b
  {
  }

  /** In a duplicate-free sequence every element occurs at most once. */
  lemma {:induction false} DistinctOccursOnce<T(!new)>(s: seq<T>, x: T)
    requires Distinct(s)
    ensures multiset(s)[x] <= 1
    decreases |s|
  {
    if s != [] {
      var init, last := s[..|s| - 1], s[|s| - 1];
      assert s == init + [last];
      assert Distinct(init) by {
        forall i, j | 0 <= i < j < |init|
          ensures init[i] != init[j]
        {
          assert init[i] == s[i] && init[j] == s[j];
        }
      }
      DistinctOccursOnce(init, x);
      if x == last {
        forall k | 0 <= k < |init|
          ensures init[k] != x
        {
          assert init[k] == s[k];
        }
        assert x !in init;
      }
    }
  }

  /** An element found at two positions occurs at least twice. */
  lemma OccursTwice<T>(s: seq<T>, i: int, j: int)
    requires 0 <= i < j < |s| && s[i] == s[j]
    ensures multiset(s)[s[i]] >= 2
  {
    assert s == s[..j] + s[j..];
    assert s[..j][i] == s[i];
    assert s[j..][0] == s[i];
  }
}
