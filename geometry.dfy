/**
 * Points of the map plane and the Euclidean distance between them.
 *
 * The source computes `Math.sqrt(dx^2 + dy^2)` in doubles and only ever
 * compares such distances with `<` and `>`. The square root is monotone on
 * non-negative reals, so every one of those comparisons is decided exactly
 * by the squared distance, which is what this module works with.
 */
module Geometry {

  /** A point `double[] {x, y}` of the map plane. */
  datatype Point = Point(x: real, y: real)

  /** The squared Euclidean distance between `a` and `b`. */
  function Dist2(a: Point, b: Point): (d: real)
    ensures d >= 0.0
  {
    (a.x - b.x) * (a.x - b.x) + (a.y - b.y) * (a.y - b.y)
  }

  lemma Dist2Symmetric(a: Point, b: Point)
    ensures Dist2(a, b) == Dist2(b, a)
  {
  }

  /** The source's test `distance(a, b) > r`. */
  predicate FartherThan(a: Point, b: Point, r: real)
  {
    r < 0.0 || Dist2(a, b) > r * r
  }

  /** Products of non-negative reals are monotone in both factors. */
  lemma MulLess(a: real, b: real, c: real, e: real)
    requires 0.0 <= a < b && 0.0 <= c < e
    ensures a * c < b * e
  {
    assert a * c <= a * e;
    assert a * e < b * e;
  }

  lemma MulAtMost(a: real, b: real, c: real, e: real)
    requires 0.0 <= a <= b && 0.0 <= c <= e
    ensures a * c <= b * e
  {
    assert a * c <= a * e;
    assert a * e <= b * e;
  }

  /** On non-negative reals, `u < w` exactly when `u * u < w * w`. */
  lemma SquareLessIff(u: real, w: real)
    requires u >= 0.0 && w >= 0.0
    ensures u < w <==> u * u < w * w
  {
    if u < w {
      MulLess(u, w, u, w);
    } else {
      MulAtMost(w, u, w, u);
    }
  }

  /**
   * `FartherThan` is exactly `distance(a, b) > r` for the true distance `d`,
   * the non-negative square root of `Dist2(a, b)`.
   */
  lemma FartherThanIsDistanceTest(a: Point, b: Point, r: real, d: real)
    requires d >= 0.0 && d * d == Dist2(a, b)
    ensures FartherThan(a, b, r) <==> d > r
  {
    if r >= 0.0 {
      SquareLessIff(r, d);
    }
  }

  /**
   * The comparator of the source's priority queues, `distance(from, a) <
   * distance(from, b)`, is decided by the squared distances.
   */
  lemma CloserIsDistanceTest(from: Point, a: Point, b: Point, da: real, db: real)
    requires da >= 0.0 && da * da == Dist2(from, a)
    requires db >= 0.0 && db * db == Dist2(from, b)
    ensures Dist2(from, a) < Dist2(from, b) <==> da < db
  {
    SquareLessIff(da, db);
  }

  /** The point `v1 + (v2 - v1) * t` on the segment from `v1` to `v2`. */
  function Lerp(v1: Point, v2: Point, t: real): (p: Point)
    ensures t == 0.0 ==> p == v1
    ensures t == 1.0 ==> p == v2
  {
    Point(v1.x + (v2.x - v1.x) * t, v1.y + (v2.y - v1.y) * t)
  }
}
