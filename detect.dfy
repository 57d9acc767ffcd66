/**
 * The order in which the driver of detect.py composes the pipeline:
 * distances, each list sorted, medians, the medians sorted, thresholding.
 */
module Detect {
  import opened Results
  import opened Sorting
  import opened Geometry
  import opened Median
  import opened Thresholding
  import opened Classify

  /** The four sorted distance lists, in the order B, C, D, E. */
  function SortedLists(sqrt: real -> real, a: seq<Point>, b: seq<Point>, c: seq<Point>, d: seq<Point>): seq<seq<real>>
    requires |b| >= |a| && |c| >= |a| && |d| >= |a|
  {
    [ InsertionSort(PairDistances(sqrt, a, b)),
      InsertionSort(PairDistances(sqrt, a, c)),
      InsertionSort(PairDistances(sqrt, a, d)),
      InsertionSort(OriginDistances(sqrt, a)) ]
  }

  /** The medians of the four sorted lists, or the IndexError medianDistance raises. */
  function Medians(sqrt: real -> real, a: seq<Point>, b: seq<Point>, c: seq<Point>, d: seq<Point>): Result<seq<real>>
    requires |b| >= |a| && |c| >= |a| && |d| >= |a|
  {
    MediansOf(SortedLists(sqrt, a, b, c, d))
  }

  /** Images B, C and D each have a corner for every corner of image A. */
  predicate EnoughCorners(a: seq<Point>, b: seq<Point>, c: seq<Point>, d: seq<Point>) {
    |b| >= |a| && |c| >= |a| && |d| >= |a|
  }

  /**
   * The presence flags the driver prints, or the IndexError it stops with:
   * computeDistance raises it when B, C or D has fewer corners than A,
   * medianDistance when A has fewer than two.
   */
  function Presence(sqrt: real -> real, a: seq<Point>, b: seq<Point>, c: seq<Point>, d: seq<Point>): Result<seq<int>> {
    if !EnoughCorners(a, b, c, d) then Failure(IndexError)
    else match Medians(sqrt, a, b, c, d)
      case Failure(e) => Failure(e)
      case Success(m) => ClassifyMedians(InsertionSort(m))
  }

  method ToArray(s: seq<real>) returns (arr: array<real>)
    ensures fresh(arr) && arr[..] == s
  {
    arr := new real[|s|](k requires 0 <= k < |s| => s[k]);
  }

  /**
   * The driver: corners of A to E in, presence flags for B, C, D, E out. The
   * corners of E are handed over but never read.
   */
  method DetectPresence(a: seq<Point>, b: seq<Point>, c: seq<Point>, d: seq<Point>, e: seq<Point>, sqrt: real -> real)
    returns (presence: Result<seq<int>>)
    requires IsSquareRoot(sqrt)
    ensures presence == Presence(sqrt, a, b, c, d)
  {
    if |b| < |a| || |c| < |a| || |d| < |a| {
      // computeDistance runs off the end of the shorter corner list.
      return Failure(IndexError);
    }
    var metrics := new PerformanceMetrics(a, b, c, d, e, sqrt);
    var ab, ac, ad, ae := metrics.ComputeDistance();
    assert ab == PairDistances(sqrt, a, b) && ac == PairDistances(sqrt, a, c);
    assert ad == PairDistances(sqrt, a, d) && ae == OriginDistances(sqrt, a);
    var sortedAB := ToArray(ab);
    sortedAB := metrics.SortDistances(sortedAB);
    var listAB := sortedAB[..];
    assert listAB == InsertionSort(PairDistances(sqrt, a, b));
    var sortedAC := ToArray(ac);
    sortedAC := metrics.SortDistances(sortedAC);
    var listAC := sortedAC[..];
    assert listAC == InsertionSort(PairDistances(sqrt, a, c));
    var sortedAD := ToArray(ad);
    sortedAD := metrics.SortDistances(sortedAD);
    var listAD := sortedAD[..];
    assert listAD == InsertionSort(PairDistances(sqrt, a, d));
    var sortedAE := ToArray(ae);
    sortedAE := metrics.SortDistances(sortedAE);
    var listAE := sortedAE[..];
    assert listAE == InsertionSort(OriginDistances(sqrt, a));
    var allDistances := [listAB, listAC, listAD, listAE];
    assert allDistances == SortedLists(sqrt, a, b, c, d);
    var medians := metrics.MedianDistance(allDistances);
    if medians.Failure? {
      return Failure(medians.error);
    }
    var sortedMedians := ToArray(medians.value);
    sortedMedians := metrics.SortDistances(sortedMedians);
    presence := metrics.AdaptiveThresholding(sortedMedians[..]);
  }

  /** Every distance list, sorted or not, has one entry per corner of image A. */
  lemma SortedListsLengths(sqrt: real -> real, a: seq<Point>, b: seq<Point>, c: seq<Point>, d: seq<Point>)
    requires |b| >= |a| && |c| >= |a| && |d| >= |a|
    ensures |SortedLists(sqrt, a, b, c, d)| == 4
    ensures forall k :: 0 <= k < 4 ==> |SortedLists(sqrt, a, b, c, d)[k]| == |a|
  {
    var lists := SortedLists(sqrt, a, b, c, d);
    InsertionSortLength(PairDistances(sqrt, a, b));
    InsertionSortLength(PairDistances(sqrt, a, c));
    InsertionSortLength(PairDistances(sqrt, a, d));
    InsertionSortLength(OriginDistances(sqrt, a));
    assert |lists[0]| == |lists[1]| == |lists[2]| == |lists[3]| == |a|;
  }

  /**
   * medianDistance gets through the four sorted lists exactly when image A has
   * at least two corners; each median is then the entry at the picked index of
   * its sorted list.
   */
  lemma MediansShape(sqrt: real -> real, a: seq<Point>, b: seq<Point>, c: seq<Point>, d: seq<Point>)
    requires |b| >= |a| && |c| >= |a| && |d| >= |a|
    ensures Medians(sqrt, a, b, c, d).Success? <==> |a| >= 2
    ensures Medians(sqrt, a, b, c, d).Success? ==> |Medians(sqrt, a, b, c, d).value| == 4
    ensures |a| >= 2 ==> PickedIndex(|a|) < |a|
    ensures Medians(sqrt, a, b, c, d).Success? ==>
      forall k :: 0 <= k < 4 ==>
        |SortedLists(sqrt, a, b, c, d)[k]| == |a| &&
        Medians(sqrt, a, b, c, d).value[k] == SortedLists(sqrt, a, b, c, d)[k][PickedIndex(|a|)]
  {
    SortedListsLengths(sqrt, a, b, c, d);
    MediansOfUniform(SortedLists(sqrt, a, b, c, d), |a|);
  }

  /**
   * Thresholding four sorted medians: four flags, non-increasing, the last one
   * (the largest median) always 0, the first one 1 exactly when the medians
   * are not all equal.
   */
  lemma SortedMediansFlags(m: seq<real>)
    requires |m| == 4
    ensures ClassifyMedians(InsertionSort(m)).Success?
    ensures var e := ClassifyMedians(InsertionSort(m)).value;
      && |e| == 4
      && (forall i, j :: 0 <= i < j < 4 ==> e[i] >= e[j])
      && e[3] == 0
      && (e[0] == 1 <==> exists i, j :: 0 <= i < j < 4 && m[i] != m[j])
  {
    var s := InsertionSort(m);
    InsertionSortPermutes(m);
    InsertionSortSorted(m);
    FlagsOfSorted(s, Threshold(s));
    LargestMedianAbsent(s);
    SmallestMedianPresentIff(s);
    AllEqualIffPermutation(m, s);
  }

  /**
   * End to end: the pipeline runs to the end exactly when image A has at least
   * two corners and B, C and D have at least as many as A, and then yields
   * four non-increasing flags whose last is 0.
   */
  lemma PresenceShape(sqrt: real -> real, a: seq<Point>, b: seq<Point>, c: seq<Point>, d: seq<Point>)
    ensures Presence(sqrt, a, b, c, d).Success? <==>
      |a| >= 2 && |b| >= |a| && |c| >= |a| && |d| >= |a|
    ensures Presence(sqrt, a, b, c, d).Success? ==>
      var e := Presence(sqrt, a, b, c, d).value;
      |e| == 4 && e[3] == 0 && forall i, j :: 0 <= i < j < 4 ==> e[i] >= e[j]
  {
    if EnoughCorners(a, b, c, d) {
      MediansShape(sqrt, a, b, c, d);
      if |a| >= 2 {
        SortedMediansFlags(Medians(sqrt, a, b, c, d).value);
      }
    }
  }

  /** Sorting the four medians before thresholding does not change the threshold. */
  lemma SortingMediansKeepsThreshold(m: seq<real>)
    requires |m| == 4
    ensures |InsertionSort(m)| == 4
    ensures Threshold(InsertionSort(m)) == Threshold(m)
  {
    InsertionSortPermutes(m);
    assert m[..4] == m && InsertionSort(m)[..4] == InsertionSort(m);
    ThresholdOrderIndependent(InsertionSort(m), m);
  }

  /**
   * Sorting the four medians changes only the slot in which each flag lands:
   * the flags are the ones the unsorted medians would get, rearranged.
   */
  lemma SortingMediansMovesFlags(m: seq<real>)
    requires |m| == 4
    ensures ClassifyMedians(m).Success? && ClassifyMedians(InsertionSort(m)).Success?
    ensures multiset(ClassifyMedians(InsertionSort(m)).value) == multiset(ClassifyMedians(m).value)
  {
    SortingMediansKeepsThreshold(m);
    InsertionSortPermutes(m);
    FlagsPermutation(InsertionSort(m), m, Threshold(m));
  }

  /** With four sorted medians the last one is never below the threshold. */
  lemma LargestMedianAbsent(s: seq<real>)
    requires |s| == 4 && Sorted(s)
    ensures PresenceFlags(s, Threshold(s))[3] == 0
  {
  }

  /** With four sorted medians the first is below the threshold exactly when they are not all equal. */
  lemma SmallestMedianPresentIff(s: seq<real>)
    requires |s| == 4 && Sorted(s)
    ensures PresenceFlags(s, Threshold(s))[0] == 1 <==> s[0] != s[3]
  {
  }

  lemma AllEqualIffPermutation(m: seq<real>, s: seq<real>)
    requires |m| == 4 && |s| == 4 && Sorted(s) && multiset(m) == multiset(s)
    ensures s[0] != s[3] <==> exists i, j :: 0 <= i < j < 4 && m[i] != m[j]
  {
    if s[0] != s[3] {
      assert s[0] in multiset(m) && s[3] in multiset(m);
      var i :| 0 <= i < 4 && m[i] == s[0];
      var j :| 0 <= j < 4 && m[j] == s[3];
      if i < j {
        assert m[i] != m[j];
      } else {
        assert m[j] != m[i];
      }
    } else {
      forall k | 0 <= k < 4
        ensures m[k] == s[0]
      {
        assert m[k] in multiset(s);
      }
    }
  }

  /**
   * Because the driver sorts the medians before thresholding, a flag's slot
   * names a rank, not a candidate: when the medians of B and D are below the
   * mean and those of C and E are not, B, C, D, E are flagged 1, 0, 1, 0 in
   * candidate order, but the driver prints 1, 1, 0, 0.
   */
  lemma FlagsFollowRanks(b: real, c: real, d: real, e: real)
    requires b < (b + c + d + e) / 4.0 && d < (b + c + d + e) / 4.0
    requires (b + c + d + e) / 4.0 <= c && (b + c + d + e) / 4.0 <= e
    ensures ClassifyMedians([b, c, d, e]) == Success([1, 0, 1, 0])
    ensures ClassifyMedians(InsertionSort([b, c, d, e])) == Success([1, 1, 0, 0])
  {
    var m := [b, c, d, e];
    assert Threshold(m) == (b + c + d + e) / 4.0;
    var inOrder := PresenceFlags(m, Threshold(m));
    assert inOrder[0] == 1 && inOrder[1] == 0 && inOrder[2] == 1 && inOrder[3] == 0;
    assert inOrder == [1, 0, 1, 0];
    SortingMediansMovesFlags(m);
    SortedMediansFlags(m);
    TwoPresentFirst(ClassifyMedians(InsertionSort(m)).value);
  }

  /** Four non-increasing flags holding two 1s and two 0s are 1, 1, 0, 0. */
  lemma TwoPresentFirst(f: seq<int>)
    requires |f| == 4 && forall i, j :: 0 <= i < j < 4 ==> f[i] >= f[j]
    requires multiset(f) == multiset([1, 0, 1, 0])
    ensures f == [1, 1, 0, 0]
  {
    forall k | 0 <= k < 4
      ensures f[k] == 0 || f[k] == 1
    {
      assert f[k] in multiset(f);
    }
    assert multiset(f)[1] == 2;
    assert f == [f[0], f[1], f[2], f[3]];
    assert multiset(f)[1] == (if f[0] == 1 then 1 else 0) + (if f[1] == 1 then 1 else 0)
      + (if f[2] == 1 then 1 else 0) + (if f[3] == 1 then 1 else 0);
  }

  /** Medians 0, 100, 1, 50 for B, C, D, E: the threshold is 37.75. */
  lemma FlagsFollowSortedMedians()
    ensures ClassifyMedians([0.0, 100.0, 1.0, 50.0]) == Success([1, 0, 1, 0])
    ensures ClassifyMedians(InsertionSort([0.0, 100.0, 1.0, 50.0])) == Success([1, 1, 0, 0])
  {
    FlagsFollowRanks(0.0, 100.0, 1.0, 50.0);
  }

  /** Four medians listed as w, z, x, y with w <= x <= y <= z are sorted to w, x, y, z. */
  lemma SortFour(w: real, x: real, y: real, z: real)
    requires w <= x <= y <= z
    ensures InsertionSort([w, z, x, y]) == [w, x, y, z]
  {
    SameFourSorted(w, x, y, z);
    SortedFourUnchanged(w, x, y, z);
  }

  lemma SameFourSorted(w: real, x: real, y: real, z: real)
    ensures InsertionSort([w, z, x, y]) == InsertionSort([w, x, y, z])
  {
    assert multiset([w, z, x, y]) == multiset([w, x, y, z]);
    InsertionSortOrderIndependent([w, z, x, y], [w, x, y, z]);
  }

  lemma SortedFourUnchanged(w: real, x: real, y: real, z: real)
    requires w <= x <= y <= z
    ensures InsertionSort([w, x, y, z]) == [w, x, y, z]
  {
    assert Sorted([w, x, y, z]);
    InsertionSortKeepsSorted([w, x, y, z]);
  }
}
