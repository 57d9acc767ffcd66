/**
 * The ordering that PerformanceMetrics.sortDistances establishes, and the
 * functional insertion sort that its in-place loop computes step by step.
 */
module Sorting {

  /** Non-decreasing order. */
  ghost predicate Sorted(s: seq<real>) {
    forall i, j :: 0 <= i < j < |s| ==> s[i] <= s[j]
  }

  /**
   * Inserts x into s the way the inner loop of sortDistances does: scanning
   * from the right, it moves past every element strictly greater than x, so
   * x lands after the elements equal to it.
   */
  function Insert(x: real, s: seq<real>): seq<real>
  {
    if s == [] || !(x < s[|s| - 1]) then s + [x]
    else Insert(x, s[..|s| - 1]) + [s[|s| - 1]]
  }

  /** Insertion sort: the prefix s[..i] is sorted, then s[i] is inserted into it. */
  function InsertionSort(s: seq<real>): seq<real>
  {
    if s == [] then [] else Insert(s[|s| - 1], InsertionSort(s[..|s| - 1]))
  }

  /** One step of the outer loop: the next entry is inserted into the sorted prefix. */
  lemma InsertionSortStep(s: seq<real>, i: int)
    requires 0 <= i < |s|
    ensures InsertionSort(s[..i + 1]) == Insert(s[i], InsertionSort(s[..i]))
  {
    assert s[..i + 1][..i] == s[..i];
  }

  /**
   * Where Insert puts x: right after the last position p whose entry is not
   * greater than x (at the front if there is none).
   */
  lemma {:induction false} InsertAt(x: real, s: seq<real>, p: int)
    requires -1 <= p < |s|
    requires p < 0 || !(x < s[p])
    requires forall k :: p < k < |s| ==> x < s[k]
    ensures Insert(x, s) == s[..p + 1] + [x] + s[p + 1..]
    decreases |s|
  {
    if p == |s| - 1 {
      assert s[..p + 1] == s && s[p + 1..] == [];
    } else {
      var init, last := s[..|s| - 1], s[|s| - 1];
      assert x < last;
      InsertAt(x, init, p);
      assert s[p + 1..] == init[p + 1..] + [last];
      assert s[..p + 1] == init[..p + 1];
    }
  }

  lemma {:induction false} InsertPermutes(x: real, s: seq<real>)
    ensures multiset(Insert(x, s)) == multiset(s) + multiset{x}
    ensures |Insert(x, s)| == |s| + 1
  {
    if s != [] && x < s[|s| - 1] {
      var init := s[..|s| - 1];
      InsertPermutes(x, init);
      assert s == init + [s[|s| - 1]];
    }
  }

  lemma {:induction false} InsertKeepsSorted(x: real, s: seq<real>)
    requires Sorted(s)
    ensures Sorted(Insert(x, s))
  {
    if s != [] && x < s[|s| - 1] {
      var init, last := s[..|s| - 1], s[|s| - 1];
      InsertKeepsSorted(x, init);
      InsertPermutes(x, init);
      var r := Insert(x, init);
      forall i | 0 <= i < |r|
        ensures r[i] <= last
      {
        assert r[i] in multiset(r);
        assert r[i] == x || r[i] in multiset(init);
      }
    }
  }

  /** sortDistances leaves its list non-decreasing. */
  lemma {:induction false} InsertionSortSorted(s: seq<real>)
    ensures Sorted(InsertionSort(s))
  {
    if s != [] {
      InsertionSortSorted(s[..|s| - 1]);
      InsertKeepsSorted(s[|s| - 1], InsertionSort(s[..|s| - 1]));
    }
  }

  /** sortDistances only rearranges its list: same length, same elements, same multiplicities. */
  lemma {:induction false} InsertionSortPermutes(s: seq<real>)
    ensures multiset(InsertionSort(s)) == multiset(s)
    ensures |InsertionSort(s)| == |s|
  {
    if s != [] {
      var init := s[..|s| - 1];
      InsertionSortPermutes(init);
      InsertPermutes(s[|s| - 1], InsertionSort(init));
      assert s == init + [s[|s| - 1]];
    }
  }

  /** The length alone, for callers that need nothing about the elements. */
  lemma InsertionSortLength(s: seq<real>)
    ensures |InsertionSort(s)| == |s|
  {
    InsertionSortPermutes(s);
  }

  /** A list that is already non-decreasing (in particular an empty or one-element list) is left as it is. */
  lemma {:induction false} InsertionSortKeepsSorted(s: seq<real>)
    requires Sorted(s)
    ensures InsertionSort(s) == s
  {
    if s != [] {
      var init, last := s[..|s| - 1], s[|s| - 1];
      assert Sorted(init);
      InsertionSortKeepsSorted(init);
      assert init == [] || !(last < init[|init| - 1]);
      assert Insert(last, init) == init + [last];
      assert s == init + [last];
    }
  }

  /** The first element of a non-decreasing list is at most every value in it. */
  lemma HeadIsLeast(s: seq<real>, v: real)
    requires Sorted(s) && v in multiset(s)
    ensures s[0] <= v
  {
  }

  /** Two non-decreasing lists with the same elements are equal. */
  lemma {:induction false} SortedPermutationsEqual(s: seq<real>, t: seq<real>)
    requires Sorted(s) && Sorted(t)
    requires multiset(s) == multiset(t)
    ensures s == t
  {
    assert |s| == |multiset(s)| == |multiset(t)| == |t|;
    if s != [] {
      assert s[0] in multiset(t) && t[0] in multiset(s) by {
        assert s[0] in s && t[0] in t;
      }
      HeadIsLeast(s, t[0]);
      HeadIsLeast(t, s[0]);
      var x := s[0];
      assert t[0] == x;
      assert multiset(s[1..]) == multiset(t[1..]) by {
        TailMultiset(s);
        TailMultiset(t);
      }
      SortedTail(s);
      SortedTail(t);
      SortedPermutationsEqual(s[1..], t[1..]);
      assert s == [s[0]] + s[1..] && t == [t[0]] + t[1..];
    }
  }

  lemma SortedTail(s: seq<real>)
    requires Sorted(s) && s != []
    ensures Sorted(s[1..])
  {
  }

  lemma TailMultiset(s: seq<real>)
    requires s != []
    ensures multiset(s[1..]) == multiset(s) - multiset{s[0]}
  {
    assert s == [s[0]] + s[1..];
  }

  /**
   * The sorted list depends only on which values were produced, not on the
   * order in which they were produced.
   */
  lemma InsertionSortOrderIndependent(s: seq<real>, t: seq<real>)
    requires multiset(s) == multiset(t)
    ensures InsertionSort(s) == InsertionSort(t)
  {
    InsertionSortSorted(s);
    InsertionSortSorted(t);
    InsertionSortPermutes(s);
    InsertionSortPermutes(t);
    SortedPermutationsEqual(InsertionSort(s), InsertionSort(t));
  }
}
