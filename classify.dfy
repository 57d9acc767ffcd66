/**
 * PerformanceMetrics: the object that holds the corner lists of images A to E
 * and the four distance lists, and the operations of the pipeline on them.
 */
module Classify {
  import opened Results
  import opened Sorting
  import opened Geometry
  import opened Median
  import opened Thresholding

  class PerformanceMetrics {
    const cornerPointsA: seq<Point>
    const cornerPointsB: seq<Point>
    const cornerPointsC: seq<Point>
    const cornerPointsD: seq<Point>
    const cornerPointsE: seq<Point>
    /** math.sqrt, which the distance formula calls. */
    const sqrt: real -> real

    /** img_A_B_euclideanDistance, img_A_C_..., img_A_D_..., img_A_E_... */
    var distancesAB: seq<real>
    var distancesAC: seq<real>
    var distancesAD: seq<real>
    var distancesAE: seq<real>

    /** The four distance lists, in the order B, C, D, E. */
    function Lists(): seq<seq<real>>
      reads this
    {
      [distancesAB, distancesAC, distancesAD, distancesAE]
    }

    /** sqrt behaves as a square root and every stored distance is non-negative. */
    ghost predicate Valid()
      reads this
    {
      && IsSquareRoot(sqrt)
      && NonNegative(distancesAB) && NonNegative(distancesAC)
      && NonNegative(distancesAD) && NonNegative(distancesAE)
    }

    constructor (a: seq<Point>, b: seq<Point>, c: seq<Point>, d: seq<Point>, e: seq<Point>, sqrt: real -> real)
      requires IsSquareRoot(sqrt)
      ensures Valid()
      ensures cornerPointsA == a && cornerPointsB == b && cornerPointsC == c
      ensures cornerPointsD == d && cornerPointsE == e && this.sqrt == sqrt
      ensures Lists() == [[], [], [], []]
    {
      cornerPointsA, cornerPointsB, cornerPointsC := a, b, c;
      cornerPointsD, cornerPointsE := d, e;
      this.sqrt := sqrt;
      distancesAB, distancesAC, distancesAD, distancesAE := [], [], [], [];
    }

    /**
     * Appends the distance between (xA, yA) and (xI, yI) to the list that
     * index selects (0 to 3 for B to E); any other index changes nothing.
     */
    method EuclideanDistance(xA: int, yA: int, xI: int, yI: int, index: int)
      requires Valid()
      modifies this
      ensures Valid()
      ensures distancesAB == old(distancesAB) + Appended(0, index, Distance(sqrt, Point(xA, yA), Point(xI, yI)))
      ensures distancesAC == old(distancesAC) + Appended(1, index, Distance(sqrt, Point(xA, yA), Point(xI, yI)))
      ensures distancesAD == old(distancesAD) + Appended(2, index, Distance(sqrt, Point(xA, yA), Point(xI, yI)))
      ensures distancesAE == old(distancesAE) + Appended(3, index, Distance(sqrt, Point(xA, yA), Point(xI, yI)))
    {
      var d := sqrt(((xA - xI) * (xA - xI) + (yA - yI) * (yA - yI)) as real);
      DistanceNonNegative(sqrt, Point(xA, yA), Point(xI, yI));
      if index == 0 {
        distancesAB := distancesAB + [d];
      }
      if index == 1 {
        distancesAC := distancesAC + [d];
      }
      if index == 2 {
        distancesAD := distancesAD + [d];
      }
      if index == 3 {
        distancesAE := distancesAE + [d];
      }
    }

    /** What list k gains from one call: the distance when index selects k, nothing otherwise. */
    static function Appended(k: int, index: int, d: real): seq<real> {
      if k == index then [d] else []
    }

    /** The distances pass i of computeDistance appends, one per corner of A. */
    ghost function Pass(i: int): seq<real>
      requires 0 <= i < 4
      requires |cornerPointsB| >= |cornerPointsA| && |cornerPointsC| >= |cornerPointsA|
      requires |cornerPointsD| >= |cornerPointsA|
    {
      [ PairDistances(sqrt, cornerPointsA, cornerPointsB),
        PairDistances(sqrt, cornerPointsA, cornerPointsC),
        PairDistances(sqrt, cornerPointsA, cornerPointsD),
        OriginDistances(sqrt, cornerPointsA) ][i]
    }

    /** What list k has gained once pass i has handled the first j corners of A. */
    ghost function Filled(k: int, i: int, j: int): seq<real>
      requires 0 <= k < 4 && 0 <= j <= |cornerPointsA|
      requires |cornerPointsB| >= |cornerPointsA| && |cornerPointsC| >= |cornerPointsA|
      requires |cornerPointsD| >= |cornerPointsA|
    {
      if k < i then Pass(k) else if k == i then Pass(k)[..j] else []
    }

    /**
     * Appends one distance per corner of A to each list: to B, C and D
     * against their corner at the same index, and to E against (0, 0),
     * because the branch that would read image E's corner tests i == 4
     * while i runs over 0..3. Returns the four lists.
     */
    method ComputeDistance() returns (ab: seq<real>, ac: seq<real>, ad: seq<real>, ae: seq<real>)
      requires Valid()
      requires |cornerPointsB| >= |cornerPointsA| && |cornerPointsC| >= |cornerPointsA|
      requires |cornerPointsD| >= |cornerPointsA|
      modifies this
      ensures Valid()
      ensures distancesAB == old(distancesAB) + PairDistances(sqrt, cornerPointsA, cornerPointsB)
      ensures distancesAC == old(distancesAC) + PairDistances(sqrt, cornerPointsA, cornerPointsC)
      ensures distancesAD == old(distancesAD) + PairDistances(sqrt, cornerPointsA, cornerPointsD)
      ensures distancesAE == old(distancesAE) + OriginDistances(sqrt, cornerPointsA)
      ensures [ab, ac, ad, ae] == Lists()
    {
      ghost var startB, startC, startD, startE := distancesAB, distancesAC, distancesAD, distancesAE;
      for i := 0 to 4
        invariant Valid()
        invariant distancesAB == startB + Filled(0, i, 0)
        invariant distancesAC == startC + Filled(1, i, 0)
        invariant distancesAD == startD + Filled(2, i, 0)
        invariant distancesAE == startE + Filled(3, i, 0)
      {
        for j := 0 to |cornerPointsA|
          invariant Valid()
          invariant distancesAB == startB + Filled(0, i, j)
          invariant distancesAC == startC + Filled(1, i, j)
          invariant distancesAD == startD + Filled(2, i, j)
          invariant distancesAE == startE + Filled(3, i, j)
        {
          var xI, yI := 0, 0;
          var xA, yA := cornerPointsA[j].x, cornerPointsA[j].y;
          if i == 0 {
            xI, yI := cornerPointsB[j].x, cornerPointsB[j].y;
          }
          if i == 1 {
            xI, yI := cornerPointsC[j].x, cornerPointsC[j].y;
          }
          if i == 2 {
            xI, yI := cornerPointsD[j].x, cornerPointsD[j].y;
          }
          if i == 4 {
            // The read of image E's corner stands here; i never reaches 4.
            assert false;
          }
          assert Point(xA, yA) == cornerPointsA[j];
          assert Pass(i)[j] == Distance(sqrt, Point(xA, yA), Point(xI, yI));
          assert Pass(i)[..j + 1] == Pass(i)[..j] + [Pass(i)[j]];
          EuclideanDistance(xA, yA, xI, yI, i);
        }
        assert Pass(i)[..|cornerPointsA|] == Pass(i);
      }
      ab, ac, ad, ae := distancesAB, distancesAC, distancesAD, distancesAE;
    }

    /**
     * Insertion sort in place: each entry in turn is taken out and the larger
     * entries before it are shifted one place right until its slot is found.
     * Returns the same array.
     */
    method SortDistances(points: array<real>) returns (sorted: array<real>)
      modifies points
      ensures sorted == points
      ensures points[..] == InsertionSort(old(points[..]))
      ensures Sorted(points[..])
      ensures multiset(points[..]) == multiset(old(points[..]))
    {
      ghost var original := points[..];
      var i := 1;
      while i < points.Length
        invariant points.Length == 0 || 1 <= i <= points.Length
        invariant points.Length > 0 ==> points[..i] == InsertionSort(original[..i])
        invariant points.Length > 0 ==> points[i..] == original[i..]
      {
        InsertionSortStep(original, i);
        InsertEntry(points, i);
        i := i + 1;
      }
      assert points[..] == points[..points.Length] && original == original[..points.Length];
      InsertionSortSorted(original);
      InsertionSortPermutes(original);
      sorted := points;
    }

    /**
     * The body of the outer loop of sortDistances: the entry at i is moved
     * left past every entry of points[..i] strictly greater than it.
     */
    method InsertEntry(points: array<real>, i: int)
      requires 0 < i < points.Length
      modifies points
      ensures points[..i + 1] == Insert(old(points[i]), old(points[..i]))
      ensures points[i + 1..] == old(points[i + 1..])
    {
      var key := points[i];
      ghost var prefix := points[..i];
      ghost var rest := points[i + 1..];
      var j := i - 1;
      while j >= 0 && key < points[j]
        invariant -1 <= j <= i - 1
        invariant forall k :: 0 <= k <= j ==> points[k] == prefix[k]
        invariant forall k :: j + 2 <= k <= i ==> points[k] == prefix[k - 1]
        invariant forall k :: j < k < i ==> key < prefix[k]
        invariant points[i + 1..] == rest
      {
        points[j + 1] := points[j];
        j := j - 1;
      }
      points[j + 1] := key;
      InsertAt(key, prefix, j);
      ghost var inserted := prefix[..j + 1] + [key] + prefix[j + 1..];
      assert points[..i + 1] == inserted by {
        forall k | 0 <= k <= i
          ensures points[k] == inserted[k]
        {
        }
      }
    }

    /**
     * One value per list, in input order, each read from its list with the
     * parity-dependent subscripts; IndexError if a list is too short for them.
     */
    method MedianDistance(allDistances: seq<seq<real>>) returns (r: Result<seq<real>>)
      ensures r == MediansOf(allDistances)
      ensures r.Success? <==> forall k :: 0 <= k < |allDistances| ==> |allDistances[k]| >= 2
      ensures r.Success? ==> |r.value| == |allDistances|
      ensures r.Success? ==> forall k :: 0 <= k < |allDistances| ==>
                PickedIndex(|allDistances[k]|) < |allDistances[k]| &&
                r.value[k] == allDistances[k][PickedIndex(|allDistances[k]|)]
    {
      MediansOfSpec(allDistances);
      var medians: seq<real> := [];
      for i := 0 to |allDistances|
        invariant MediansOf(allDistances[..i]) == Success(medians)
      {
        var n := |allDistances[i]|;
        var d: real;
        assert allDistances[..i + 1][..i] == allDistances[..i];
        if n % 2 == 0 {
          if IntOfHalf(n) >= n || IntOfHalf(n + 1) >= n {
            return Failure(IndexError);
          }
          d := 0.5 * (allDistances[i][IntOfHalf(n)] + allDistances[i][IntOfHalf(n + 1)]);
        } else {
          if IntOfHalf(n + 1) >= n {
            return Failure(IndexError);
          }
          d := allDistances[i][IntOfHalf(n + 1)];
        }
        medians := medians + [d];
      }
      assert allDistances[..|allDistances|] == allDistances;
      r := Success(medians);
    }

    /**
     * Derives the threshold from the first four medians and flags each median:
     * 1 when it is strictly below the threshold, otherwise 0. IndexError on
     * fewer than four medians.
     */
    method AdaptiveThresholding(medians: seq<real>) returns (r: Result<seq<int>>)
      ensures r == ClassifyMedians(medians)
      ensures r.Failure? <==> |medians| < 4
      ensures r.Success? ==> |medians| >= 4 && |r.value| == |medians|
      ensures r.Success? ==> forall i :: 0 <= i < |medians| ==>
                r.value[i] == (if medians[i] < (medians[0] + medians[1] + medians[2] + medians[3]) / 4.0 then 1 else 0)
    {
      if |medians| < 4 {
        return Failure(IndexError);
      }
      var e: seq<int> := [];
      var threshold := (((medians[1] + medians[0]) / 2.0) + ((medians[2] + medians[3]) / 2.0)) / 2.0;
      ThresholdIsMean(medians);
      for i := 0 to |medians|
        invariant e == PresenceFlags(medians[..i], threshold)
      {
        if medians[i] < threshold {
          e := e + [1];
        } else {
          e := e + [0];
        }
      }
      assert medians[..|medians|] == medians;
      r := Success(e);
    }
  }
}
