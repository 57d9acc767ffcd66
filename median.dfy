/**
 * The reduction of a sorted distance list to one value
 * (PerformanceMetrics.medianDistance), with its index arithmetic as written.
 */
module Median {
  import opened Results
  import opened Sorting

  /**
   * Python's int(k / 2): true division to a float, then truncation toward
   * zero, which for a non-negative k is floor division.
   */
  function IntOfHalf(k: nat): (r: int)
    ensures r == k / 2
  {
    var q, m := k / 2, k % 2;
    assert (k as real) / 2.0 == q as real + (m as real) / 2.0;
    ((k as real) / 2.0).Floor
  }

  /**
   * The value medianDistance reads from one list of length n: for an even n
   * the mean of the entries at int(n/2) and int((n+1)/2), for an odd n the
   * entry at int((n+1)/2); a subscript past the end raises IndexError.
   */
  function MedianOf(s: seq<real>): Result<real>
  {
    var n := |s|;
    if n % 2 == 0 then
      if IntOfHalf(n) < n && IntOfHalf(n + 1) < n
      then Success(0.5 * (s[IntOfHalf(n)] + s[IntOfHalf(n + 1)]))
      else Failure(IndexError)
    else
      if IntOfHalf(n + 1) < n then Success(s[IntOfHalf(n + 1)]) else Failure(IndexError)
  }

  /** The index whose entry medianDistance returns for a list of length n. */
  function PickedIndex(n: nat): nat {
    if n % 2 == 0 then n / 2 else (n + 1) / 2
  }

  /**
   * A list yields a value exactly when it has at least two entries; the value is
   * the entry at n/2 for an even length n (both subscripts land there) and at
   * (n+1)/2 for an odd one.
   */
  lemma MedianOfPicks(s: seq<real>)
    ensures MedianOf(s).Success? <==> |s| >= 2
    ensures |s| >= 2 ==> PickedIndex(|s|) < |s| && MedianOf(s) == Success(s[PickedIndex(|s|)])
  {
  }

  /** On a sorted list the value lies between the smallest and the largest entry. */
  lemma MedianOfSortedBounds(s: seq<real>)
    requires Sorted(s) && |s| >= 2
    ensures s[0] <= MedianOf(s).value <= s[|s| - 1]
  {
  }

  /**
   * The picked entry is not the conventional median: for three sorted values it
   * is the largest, and for four it is the third.
   */
  lemma MedianOfIsUpperEntry()
    ensures MedianOf([1.0, 2.0, 3.0]) == Success(3.0)
    ensures MedianOf([1.0, 2.0, 3.0, 4.0]) == Success(3.0)
  {
  }

  /**
   * All lists reduced in order (the whole of medianDistance): IndexError if any
   * list is too short, otherwise one value per list.
   */
  function MediansOf(lists: seq<seq<real>>): Result<seq<real>>
  {
    if lists == [] then Success([])
    else
      match MediansOf(lists[..|lists| - 1])
      case Failure(e) => Failure(e)
      case Success(m) =>
        match MedianOf(lists[|lists| - 1])
        case Failure(e) => Failure(e)
        case Success(v) => Success(m + [v])
  }

  /**
   * medianDistance succeeds exactly when every list has at least two entries,
   * and then returns one value per list, in input order, each the entry at the
   * picked index of its list.
   */
  lemma {:induction false} MediansOfSpec(lists: seq<seq<real>>)
    ensures MediansOf(lists).Success? <==> forall k :: 0 <= k < |lists| ==> |lists[k]| >= 2
    ensures MediansOf(lists).Success? ==>
      && |MediansOf(lists).value| == |lists|
      && forall k :: 0 <= k < |lists| ==>
           PickedIndex(|lists[k]|) < |lists[k]| &&
           MediansOf(lists).value[k] == lists[k][PickedIndex(|lists[k]|)]
  {
    if lists != [] {
      var init, last := lists[..|lists| - 1], lists[|lists| - 1];
      MediansOfSpec(init);
      MedianOfPicks(last);
      assert forall k :: 0 <= k < |init| ==> lists[k] == init[k];
    }
  }

  /**
   * For lists that all have n entries: medianDistance succeeds exactly when
   * there are no lists or n is at least two, and then picks the same index in
   * every list.
   */
  lemma MediansOfUniform(lists: seq<seq<real>>, n: nat)
    requires forall k :: 0 <= k < |lists| ==> |lists[k]| == n
    ensures MediansOf(lists).Success? <==> |lists| == 0 || n >= 2
    ensures MediansOf(lists).Success? ==>
      && |MediansOf(lists).value| == |lists|
      && forall k :: 0 <= k < |lists| ==>
           PickedIndex(n) < n && MediansOf(lists).value[k] == lists[k][PickedIndex(n)]
  {
  }
}
