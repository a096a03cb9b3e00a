/**
 * The edge collision check shared by both roadmap builders.
 *
 * `edgeIsValid(v1, v2, map)` walks a fresh base-2 Van der Corput generator:
 * each value `t` names the point `v1 + (v2 - v1) * t`, which is looked up
 * against the obstacles, for as long as `t * d < d - 10` where `d` is the
 * length of the edge. The first point found in an obstacle rejects the edge.
 */
module Collision {
  import opened Geometry
  import opened VanDerCorputSequence
  import opened ObstacleMap

  /** Sampling stops once the rest of the edge is at most this long. */
  const EdgeCheckPrecision: real := 10.0
  /** Base of the generator that supplies the sample offsets. */
  const EdgeCheckBase: int := 2

  /**
   * The loop guard `t * d < d - 10`, stated without the square root: the
   * stretch `(1 - t) * d` from the sample to `v2` is longer than 10.
   * `GuardIsSourceTest` shows the two agree for every `t` in `[0, 1]`.
   */
  predicate KeepsChecking(v1: Point, v2: Point, t: real)
  {
    (1.0 - t) * (1.0 - t) * Dist2(v1, v2) > EdgeCheckPrecision * EdgeCheckPrecision
  }

  /** The `n`-th sample offset (from 0) is examined: the guard held for it and all before. */
  ghost predicate Reached(v1: Point, v2: Point, n: nat)
  {
    forall j: nat :: j <= n ==> KeepsChecking(v1, v2, RadicalInverse(EdgeCheckBase, j))
  }

  /** No examined sample point lies in an obstacle. */
  ghost predicate EdgeValid(v1: Point, v2: Point, m: Map)
  {
    forall n: nat :: Reached(v1, v2, n) ==> !InObstacle(m, Lerp(v1, v2, RadicalInverse(EdgeCheckBase, n)))
  }

  lemma Halve(h: real, d: real)
    ensures (h / 2.0) * d == h * (d / 2.0)
  {
  }

  /** `2^-k * d <= 1` once `d <= k`. */
  lemma {:induction false} HalfPowBound(k: nat, d: real)
    requires 0.0 <= d <= k as real
    ensures HalfPow(k) * d <= 1.0
  {
    if k >= 2 {
      HalfPowBound(k - 1, d / 2.0);
      Halve(HalfPow(k - 1), d);
    }
  }

  lemma SquareBelow(h: real, d: real)
    requires 0.0 < h <= 1.0 && d >= 0.0 && h * d <= 1.0
    ensures h * h * d <= 1.0
  {
    MulAtMost(h, 1.0, h * d, h * d);
    assert h * h * d == h * (h * d);
  }

  lemma GuardFails(t: real, h: real, d: real)
    requires t == 1.0 - h && h * h * d <= 1.0
    ensures !((1.0 - t) * (1.0 - t) * d > EdgeCheckPrecision * EdgeCheckPrecision)
  {
    assert 1.0 - t == h;
  }

  /**
   * An offset at which the guard fails. The base-2 values `1 - 2^-k` come
   * arbitrarily close to 1, so the edge check always terminates.
   */
  function StopIndex(v1: Point, v2: Point): (n: nat)
    ensures !KeepsChecking(v1, v2, RadicalInverse(EdgeCheckBase, n))
  {
    var k: nat := Dist2(v1, v2).Floor + 1;
    StopsAtTop(v1, v2, k);
    TopIndex(k)
  }

  /** The guard fails at the base-2 value `1 - 2^-k` once the squared length is at most `k`. */
  lemma StopsAtTop(v1: Point, v2: Point, k: nat)
    requires Dist2(v1, v2) <= k as real
    ensures !KeepsChecking(v1, v2, RadicalInverse(EdgeCheckBase, TopIndex(k)))
  {
    var d := Dist2(v1, v2);
    var h := HalfPow(k);
    var t := RadicalInverse(EdgeCheckBase, TopIndex(k));
    HalfPowSquareBound(k, d);
    TopValue(k);
    GuardFails(t, h, d);
  }

  /** `2^-k * 2^-k * d <= 1` once `d <= k`. */
  lemma HalfPowSquareBound(k: nat, d: real)
    requires 0.0 <= d <= k as real
    ensures HalfPow(k) * HalfPow(k) * d <= 1.0
  {
    HalfPowBound(k, d);
    SquareBelow(HalfPow(k), d);
  }

  /** The source's `edgeIsValid`: true exactly when no examined sample point is blocked. */
  method EdgeIsValid(v1: Point, v2: Point, m: Map) returns (valid: bool)
    ensures valid == EdgeValid(v1, v2, m)
  {
    var vdc := new VanDerCorput(EdgeCheckBase);
    ghost var stop := StopIndex(v1, v2);
    var t := vdc.Next();
    while KeepsChecking(v1, v2, t)
      invariant vdc.base == EdgeCheckBase && 1 <= vdc.index <= stop + 1
      invariant t == RadicalInverse(EdgeCheckBase, vdc.index - 1)
      invariant forall j: nat :: j < vdc.index - 1 ==>
                  KeepsChecking(v1, v2, RadicalInverse(EdgeCheckBase, j))
                  && !InObstacle(m, Lerp(v1, v2, RadicalInverse(EdgeCheckBase, j)))
      decreases stop + 1 - vdc.index
    {
      if InObstacle(m, Lerp(v1, v2, t)) {
        assert Reached(v1, v2, vdc.index - 1);
        return false;
      }
      t := vdc.Next();
    }
    forall n: nat | Reached(v1, v2, n)
      ensures !InObstacle(m, Lerp(v1, v2, RadicalInverse(EdgeCheckBase, n)))
    {
      if n >= vdc.index - 1 {
        assert false;
      }
    }
    return true;
  }

  /** An edge of length at most 10 is valid: the guard fails at the first offset, 0. */
  lemma ShortEdgeValid(v1: Point, v2: Point, m: Map)
    requires Dist2(v1, v2) <= EdgeCheckPrecision * EdgeCheckPrecision
    ensures EdgeValid(v1, v2, m)
  {
    forall n: nat
      ensures !Reached(v1, v2, n)
    {
      assert !KeepsChecking(v1, v2, RadicalInverse(EdgeCheckBase, 0));
    }
  }

  /** On a longer edge the first point examined is `v1` itself. */
  lemma LongEdgeChecksStart(v1: Point, v2: Point, m: Map)
    requires Dist2(v1, v2) > EdgeCheckPrecision * EdgeCheckPrecision
    ensures Reached(v1, v2, 0)
    ensures InObstacle(m, v1) ==> !EdgeValid(v1, v2, m)
  {
    assert RadicalInverse(EdgeCheckBase, 0) == 0.0;
    assert Lerp(v1, v2, 0.0) == v1;
  }

  /** On a map without obstacles every edge is valid. */
  lemma NoObstaclesAllValid(v1: Point, v2: Point, m: Map)
    requires m.obstacles == []
    ensures EdgeValid(v1, v2, m)
  {
    forall n: nat
      ensures !InObstacle(m, Lerp(v1, v2, RadicalInverse(EdgeCheckBase, n)))
    {
      EmptyMapBlocksNothing(m, Lerp(v1, v2, RadicalInverse(EdgeCheckBase, n)));
    }
  }

  lemma SquareOfProduct(a: real, d: real)
    ensures (a * d) * (a * d) == a * a * (d * d)
  {
  }

  lemma ScaleNonNegative(a: real, d: real)
    requires a >= 0.0 && d >= 0.0
    ensures a * d >= 0.0
  {
  }

  /**
   * `KeepsChecking` is the source's guard `t * d < d - 10` for the true edge
   * length `d`, the non-negative square root of `Dist2(v1, v2)`.
   */
  lemma GuardIsSourceTest(v1: Point, v2: Point, t: real, d: real)
    requires 0.0 <= t <= 1.0 && d >= 0.0 && d * d == Dist2(v1, v2)
    ensures KeepsChecking(v1, v2, t) <==> t * d < d - EdgeCheckPrecision
  {
    var u := (1.0 - t) * d;
    assert u == d - t * d;
    ScaleNonNegative(1.0 - t, d);
    SquareLessIff(EdgeCheckPrecision, u);
    SquareOfProduct(1.0 - t, d);
  }

  lemma ScaledDifference(a: real, b: real, t: real)
    ensures (a + (b - a) * t) - b == (1.0 - t) * (a - b)
  {
  }

  lemma FactorSum(s: real, x: real, y: real)
    ensures s * x + s * y == s * (x + y)
  {
  }

  /**
   * The guard holds exactly while the sample point is more than 10 away from
   * `v2`: the unexamined rest of the edge is longer than the precision.
   */
  lemma GuardIsDistanceToEnd(v1: Point, v2: Point, t: real)
    ensures KeepsChecking(v1, v2, t) <==> FartherThan(Lerp(v1, v2, t), v2, EdgeCheckPrecision)
  {
    var p := Lerp(v1, v2, t);
    var s := 1.0 - t;
    ScaledDifference(v1.x, v2.x, t);
    ScaledDifference(v1.y, v2.y, t);
    SquareOfProduct(s, v1.x - v2.x);
    SquareOfProduct(s, v1.y - v2.y);
    FactorSum(s * s, (v1.x - v2.x) * (v1.x - v2.x), (v1.y - v2.y) * (v1.y - v2.y));
    assert Dist2(p, v2) == s * s * Dist2(v1, v2);
  }
}
