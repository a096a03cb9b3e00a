/**
 * Vertex sampling shared by both roadmap builders: Halton points in bases
 * 2 and 3 scaled to the map, with the points inside obstacles discarded.
 */
module Sampling {
  import opened Geometry
  import opened VanDerCorputSequence
  import opened ObstacleMap

  /** How many vertices the roadmap wants. */
  const NumVertices: nat := 150
  /** Base of the Halton sequence's first coordinate. */
  const P: int := 2
  /** Base of the Halton sequence's second coordinate. */
  const Q: int := 3

  /** The fractional coordinates `(fx, fy)` converted to a point of the map. */
  function ToMap(m: Map, fx: real, fy: real): Point
  {
    Point(fx * m.width, fy * m.height)
  }

  /** The `n`-th Halton draw (from 0) converted to a point of the map. */
  function SamplePoint(m: Map, n: nat): Point
  {
    ToMap(m, RadicalInverse(P, n), RadicalInverse(Q, n))
  }

  /** The points kept from the first `n` draws, in draw order. */
  function KeptSamples(m: Map, n: nat): (s: seq<Point>)
    ensures |s| <= n
  {
    if n == 0 then []
    else
      var p := SamplePoint(m, n - 1);
      KeptSamples(m, n - 1) + (if InObstacle(m, p) then [] else [p])
  }

  /** One more draw: the scaled Halton point is kept unless an obstacle contains it. */
  lemma KeptSamplesStep(m: Map, n: nat, fx: real, fy: real, point: Point)
    requires fx == RadicalInverse(P, n) && fy == RadicalInverse(Q, n)
    requires point == ToMap(m, fx, fy)
    ensures KeptSamples(m, n + 1) == KeptSamples(m, n) + (if InObstacle(m, point) then [] else [point])
  {
    assert point == SamplePoint(m, n);
  }

  /** Every kept point is outside all obstacles and is one of the draws. */
  lemma {:induction false} KeptSamplesAreFree(m: Map, n: nat)
    ensures forall p :: p in KeptSamples(m, n) ==> !InObstacle(m, p)
    ensures forall p :: p in KeptSamples(m, n) ==> exists j :: 0 <= j < n && p == SamplePoint(m, j)
  {
    if n > 0 {
      KeptSamplesAreFree(m, n - 1);
    }
  }

  /** On a map without obstacles every draw is kept. */
  lemma {:induction false} NoObstaclesKeepsAll(m: Map, n: nat)
    requires m.obstacles == []
    ensures |KeptSamples(m, n)| == n
  {
    if n > 0 {
      NoObstaclesKeepsAll(m, n - 1);
      EmptyMapBlocksNothing(m, SamplePoint(m, n - 1));
    }
  }

  /** One more draw keeps at most one more point, and the earlier ones stay. */
  lemma KeptSamplesGrow(m: Map, n: nat)
    ensures KeptSamples(m, n) <= KeptSamples(m, n + 1)
    ensures |KeptSamples(m, n + 1)| <= |KeptSamples(m, n)| + 1
  {
  }

  /** On a map with non-negative extent every draw lies in `[0, width] x [0, height]`. */
  lemma SampleInsideMap(m: Map, n: nat)
    requires m.width >= 0.0 && m.height >= 0.0
    ensures 0.0 <= SamplePoint(m, n).x <= m.width
    ensures 0.0 <= SamplePoint(m, n).y <= m.height
  {
    MulAtMost(0.0, RadicalInverse(P, n), 0.0, m.width);
    MulAtMost(RadicalInverse(P, n), 1.0, m.width, m.width);
    MulAtMost(0.0, RadicalInverse(Q, n), 0.0, m.height);
    MulAtMost(RadicalInverse(Q, n), 1.0, m.height, m.height);
  }
}
