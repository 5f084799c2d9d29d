/**
 * Points of the normalised image plane and the Euclidean distance between them.
 * Coordinates are mathematical reals: floating-point rounding of CGFloat is not modelled.
 */
module Geometry {

  /** A CGPoint. */
  datatype Point = Point(x: real, y: real)

  /** The square of the Euclidean distance, i.e. the radicand of `distance(from:to:)`. */
  function SquaredDistance(from: Point, to: Point): (d: real)
    ensures d >= 0.0
  {
    var dx := from.x - to.x;
    var dy := from.y - to.y;
    ProductNonNegative(dx, dx);
    ProductNonNegative(dy, dy);
    dx * dx + dy * dy
  }

  lemma ProductNonNegative(a: real, b: real)
    requires (a >= 0.0 && b >= 0.0) || (a <= 0.0 && b <= 0.0)
    ensures a * b >= 0.0
  {
  }

  /** `r` is the (non-negative) square root of `a`, as `sqrt` returns it. */
  ghost predicate IsSqrt(r: real, a: real) {
    r >= 0.0 && r * r == a
  }

  /** `d` is what `distance(from:to:)` returns: the square root of the squared distance. */
  ghost predicate IsDistance(d: real, from: Point, to: Point) {
    IsSqrt(d, SquaredDistance(from, to))
  }

  lemma SquaredDistanceSymmetric(p: Point, q: Point)
    ensures SquaredDistance(p, q) == SquaredDistance(q, p)
  {
  }

  /** The square root is strictly monotone: comparing roots is comparing radicands. */
  lemma SqrtMonotone(r1: real, a1: real, r2: real, a2: real)
    requires IsSqrt(r1, a1) && IsSqrt(r2, a2)
    ensures r1 < r2 <==> a1 < a2
    ensures r1 == r2 <==> a1 == a2
  {
    if r1 < r2 {
      SquareStrictlyMonotone(r1, r2);
    } else if r2 < r1 {
      SquareStrictlyMonotone(r2, r1);
    }
  }

  lemma ProductPositive(a: real, b: real)
    requires a > 0.0 && b > 0.0
    ensures a * b > 0.0
  {
  }

  lemma SquareStrictlyMonotone(a: real, b: real)
    requires 0.0 <= a < b
    ensures a * a < b * b
  {
    ProductPositive(b - a, b + a);
    assert b * b - a * a == (b - a) * (b + a);
  }

  /** The distance is determined by its two points, does not depend on their order, and is never negative. */
  lemma DistanceWellDefined(d1: real, d2: real, p: Point, q: Point)
    requires IsDistance(d1, p, q) && IsDistance(d2, q, p)
    ensures d1 == d2 && d1 >= 0.0
  {
    SquaredDistanceSymmetric(p, q);
    SqrtMonotone(d1, SquaredDistance(p, q), d2, SquaredDistance(q, p));
  }

  /** Comparing two distances is comparing the squared distances. */
  lemma DistanceLessIffSquaredLess(d1: real, p1: Point, q1: Point, d2: real, p2: Point, q2: Point)
    requires IsDistance(d1, p1, q1) && IsDistance(d2, p2, q2)
    ensures d1 < d2 <==> SquaredDistance(p1, q1) < SquaredDistance(p2, q2)
  {
    SqrtMonotone(d1, SquaredDistance(p1, q1), d2, SquaredDistance(p2, q2));
  }

  /** The distances of `p` and `q` from `origin` compare as their squared distances do. */
  lemma DistancesCompareBySquares(p: Point, q: Point, origin: Point)
    ensures forall dp: real, dq: real
      {:trigger IsDistance(dp, p, origin), IsDistance(dq, q, origin)} ::
      IsDistance(dp, p, origin) && IsDistance(dq, q, origin) ==>
        (dp < dq <==> SquaredDistance(p, origin) < SquaredDistance(q, origin))
  {
    forall dp: real, dq: real | IsDistance(dp, p, origin) && IsDistance(dq, q, origin)
      ensures dp < dq <==> SquaredDistance(p, origin) < SquaredDistance(q, origin)
    {
      DistanceLessIffSquaredLess(dp, p, origin, dq, q, origin);
    }
  }
}
