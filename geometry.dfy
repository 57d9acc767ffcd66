/**
 * Corner points and the Euclidean distances between them
 * (PerformanceMetrics.euclideanDistance and the lists computeDistance fills).
 */
module Geometry {

  /** A detected corner: the integer pixel coordinates that ravel() yields. */
  datatype Point = Point(x: int, y: int)

  /** The point (0, 0) that computeDistance starts every partner corner from. */
  const Origin := Point(0, 0)

  /**
   * What is assumed of math.sqrt: on a non-negative argument it returns the
   * non-negative number whose square is that argument.
   */
  ghost predicate IsSquareRoot(sqrt: real -> real) {
    forall v: real :: 0.0 <= v ==> 0.0 <= sqrt(v) && Square(sqrt(v)) == v
  }

  function Square(r: real): real {
    r * r
  }

  /** The squared Euclidean distance between a and b, in integers. */
  function SquaredDistance(a: Point, b: Point): int {
    (a.x - b.x) * (a.x - b.x) + (a.y - b.y) * (a.y - b.y)
  }

  /** The Euclidean distance between a and b: sqrt applied to the squared distance. */
  function Distance(sqrt: real -> real, a: Point, b: Point): real {
    sqrt(SquaredDistance(a, b) as real)
  }

  /** Entry j is the distance from a[j] to b[j]: corners are paired by index. */
  function PairDistances(sqrt: real -> real, a: seq<Point>, b: seq<Point>): seq<real>
    requires |b| >= |a|
  {
    seq(|a|, j requires 0 <= j < |a| => Distance(sqrt, a[j], b[j]))
  }

  /** Entry j is the distance from a[j] to the origin. */
  function OriginDistances(sqrt: real -> real, a: seq<Point>): seq<real> {
    seq(|a|, j requires 0 <= j < |a| => Distance(sqrt, a[j], Origin))
  }

  predicate NonNegative(s: seq<real>) {
    forall j :: 0 <= j < |s| ==> 0.0 <= s[j]
  }

  lemma SquaredDistanceProperties(a: Point, b: Point)
    ensures SquaredDistance(a, b) >= 0
    ensures SquaredDistance(a, b) == SquaredDistance(b, a)
    ensures SquaredDistance(a, b) == 0 <==> a == b
  {
  }

  /** Every distance is non-negative. */
  lemma DistanceNonNegative(sqrt: real -> real, a: Point, b: Point)
    requires IsSquareRoot(sqrt)
    ensures 0.0 <= Distance(sqrt, a, b)
  {
  }

  /** The distance does not depend on which of the two corners is the reference. */
  lemma DistanceSymmetric(sqrt: real -> real, a: Point, b: Point)
    ensures Distance(sqrt, a, b) == Distance(sqrt, b, a)
  {
  }

  lemma PositiveProduct(p: real, q: real)
    requires 0.0 < p && 0.0 < q
    ensures 0.0 < p * q
  {
  }

  lemma SquareIncreasing(a: real, b: real)
    requires 0.0 <= a < b
    ensures Square(a) < Square(b)
  {
    PositiveProduct(b - a, b + a);
    assert (b - a) * (b + a) == b * b - a * a;
  }

  /** The square root of a non-negative value is zero exactly when the value is. */
  lemma RootZeroIff(sqrt: real -> real, v: real)
    requires IsSquareRoot(sqrt)
    requires 0.0 <= v
    ensures sqrt(v) == 0.0 <==> v == 0.0
  {
    var r := sqrt(v);
    assert 0.0 <= r && Square(r) == v;
    if r != 0.0 {
      SquareIncreasing(0.0, r);
    }
  }

  /** The distance is zero exactly when the two corners coincide. */
  lemma DistanceZeroIff(sqrt: real -> real, a: Point, b: Point)
    requires IsSquareRoot(sqrt)
    ensures Distance(sqrt, a, b) == 0.0 <==> a == b
  {
    SquaredDistanceProperties(a, b);
    RootZeroIff(sqrt, SquaredDistance(a, b) as real);
  }

  /** The square root of a square is the non-negative number squared. */
  lemma RootOfSquare(sqrt: real -> real, v: real)
    requires IsSquareRoot(sqrt)
    requires 0.0 <= v
    ensures sqrt(Square(v)) == v
  {
    var r := sqrt(Square(v));
    assert 0.0 <= r && Square(r) == Square(v);
    if r < v {
      SquareIncreasing(r, v);
    } else if v < r {
      SquareIncreasing(v, r);
    }
  }

  /** Two corners on the same row, k pixels apart, are at distance k. */
  lemma DistanceAlongRow(sqrt: real -> real, p: Point, k: nat)
    requires IsSquareRoot(sqrt)
    ensures Distance(sqrt, p, Point(p.x + k, p.y)) == k as real
  {
    var q := Point(p.x + k, p.y);
    assert SquaredDistance(p, q) == k * k;
    assert (k * k) as real == Square(k as real);
    RootOfSquare(sqrt, k as real);
  }

  /** A list built from paired corners holds only non-negative values. */
  lemma PairDistancesNonNegative(sqrt: real -> real, a: seq<Point>, b: seq<Point>)
    requires IsSquareRoot(sqrt)
    requires |b| >= |a|
    ensures NonNegative(PairDistances(sqrt, a, b))
    ensures NonNegative(OriginDistances(sqrt, a))
  {
  }

  /** Swapping the reference and the candidate image gives the same list. */
  lemma PairDistancesSymmetric(sqrt: real -> real, a: seq<Point>, b: seq<Point>)
    requires |a| == |b|
    ensures PairDistances(sqrt, a, b) == PairDistances(sqrt, b, a)
  {
  }

  /** A candidate whose corners are exactly the reference's gives an all-zero list. */
  lemma PairDistancesToItself(sqrt: real -> real, a: seq<Point>)
    requires IsSquareRoot(sqrt)
    ensures forall j :: 0 <= j < |a| ==> PairDistances(sqrt, a, a)[j] == 0.0
  {
    forall j | 0 <= j < |a|
      ensures Distance(sqrt, a[j], a[j]) == 0.0
    {
      DistanceZeroIff(sqrt, a[j], a[j]);
    }
  }

  /**
   * The origin list is not the list of the reference's own corners unless every
   * corner is at the origin: an image E identical to image A does not yield zeros.
   */
  lemma OriginDistancesDifferFromPairing(sqrt: real -> real, a: seq<Point>, j: int)
    requires IsSquareRoot(sqrt)
    requires 0 <= j < |a| && a[j] != Origin
    ensures OriginDistances(sqrt, a)[j] != 0.0
    ensures OriginDistances(sqrt, a) != PairDistances(sqrt, a, a)
  {
  }
}
