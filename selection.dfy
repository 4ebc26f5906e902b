/**
 * The membership toggles of the filter panels: `toggleType`/`toggleCategory`
 * in the analytics view and `toggleTypeFilter`/`toggleCategoryFilter` in the
 * list view are one and the same operation on a list of selected values.
 */
module Selection {
  import opened JsArray

  function IsNot<T(==)>(x: T): T -> bool
  {
    (y: T) => y != x
  }

  /**
   * `prev.includes(x) ? prev.filter(y => y !== x) : [...prev, x]`: a selected
   * value is removed (every copy of it), an unselected one is appended.
   */
  function Toggle<T(==,!new)>(selected: seq<T>, x: T): (r: seq<T>)
    ensures x in r <==> x !in selected
    ensures forall y :: y != x ==> (y in r <==> y in selected)
    ensures x !in selected ==> r == selected + [x]
    ensures x in selected ==> IsSubseq(r, selected) && |r| < |selected|
  {
    if x in selected then
      FilterIsSubseq(IsNot(x), selected);
      FilterDropsOne(IsNot(x), selected, x);
      Filter(IsNot(x), selected)
    else selected + [x]
  }

  /** Filtering out a value that occurs shortens the list. */
  lemma {:induction false} FilterDropsOne<T(!new)>(f: T -> bool, s: seq<T>, x: T)
    requires x in s && !f(x)
    ensures |Filter(f, s)| < |s|
    decreases |s|
  {
    var init, last := s[..|s| - 1], s[|s| - 1];
    assert s == init + [last];
    if last != x {
      FilterDropsOne(f, init, x);
    }
  }

  /** Toggling keeps a duplicate-free selection duplicate-free. */
  lemma ToggleKeepsDistinct<T(!new)>(selected: seq<T>, x: T)
    requires Distinct(selected)
    ensures Distinct(Toggle(selected, x))
  {
    if x in selected {
      FilterIsSubseq(IsNot(x), selected);
      SubseqOfDistinct(Toggle(selected, x), selected);
    }
  }

  /** A subsequence of a duplicate-free sequence is duplicate-free. */
  lemma {:induction false} SubseqOfDistinct<T(!new)>(r: seq<T>, s: seq<T>)
    requires IsSubseq(r, s) && Distinct(s)
    ensures Distinct(r)
    decreases |r| + |s|
  {
    if r != [] {
      var s0 := s[..|s| - 1];
      assert forall i, j :: 0 <= i < j < |s0| ==> s0[i] == s[i] && s0[j] == s[j];
      if r[|r| - 1] == s[|s| - 1] && IsSubseq(r[..|r| - 1], s0) {
        var r0 := r[..|r| - 1];
        SubseqOfDistinct(r0, s0);
        SubseqMembers(r0, s0);
        assert forall i :: 0 <= i < |s0| ==> s0[i] != s[|s| - 1];
        forall i | 0 <= i < |r0|
          ensures r0[i] != r[|r| - 1]
        {
          assert r0[i] in r0;
        }
      } else {
        SubseqOfDistinct(r, s0);
      }
    }
  }

  /** Every element of a subsequence occurs in the sequence. */
  lemma {:induction false} SubseqMembers<T(!new)>(r: seq<T>, s: seq<T>)
    requires IsSubseq(r, s)
    ensures forall x :: x in r ==> x in s
    decreases |r| + |s|
  {
    if r != [] {
      var s0 := s[..|s| - 1];
      if r[|r| - 1] == s[|s| - 1] && IsSubseq(r[..|r| - 1], s0) {
        SubseqMembers(r[..|r| - 1], s0);
        assert r == r[..|r| - 1] + [r[|r| - 1]];
      } else {
        SubseqMembers(r, s0);
      }
    }
  }

  /** Toggling an unselected value twice gives back exactly the same list. */
  lemma ToggleTwiceRestores<T(!new)>(selected: seq<T>, x: T)
    requires x !in selected
    ensures Toggle(Toggle(selected, x), x) == selected
  {
    FilterAppend(IsNot(x), selected, [x]);
    assert Filter(IsNot(x), [x]) == Filter(IsNot(x), [] + [x]);
    FilterKeepsAll(IsNot(x), selected);
  }

  /**
   * Toggling any value twice gives back the same selection as a set; a
   * selected value moves to the end of the list.
   */
  lemma ToggleTwiceSameSelection<T(!new)>(selected: seq<T>, x: T)
    ensures forall y :: y in Toggle(Toggle(selected, x), x) <==> y in selected
    ensures x in selected ==> Toggle(Toggle(selected, x), x) == Filter(IsNot(x), selected) + [x]
  {
  }
}
