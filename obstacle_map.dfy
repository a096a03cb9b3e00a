/**
 * The map the roadmap is built on: a `width` by `height` rectangle holding
 * axis-aligned rectangular obstacles.
 */
module ObstacleMap {
  import opened Wrappers
  import opened Geometry

  /** A rectangle with corner `(x, y)` and the given extent. */
  datatype Obstacle = Obstacle(x: real, y: real, width: real, height: real)

  /**
   * The checked constructor: any negative argument is an
   * `IllegalArgumentException`; otherwise the values are stored unchanged.
   */
  function NewObstacle(x: real, y: real, width: real, height: real): (r: Result<Obstacle>)
    ensures r.Ok? <==> 0.0 <= x && 0.0 <= y && 0.0 <= width && 0.0 <= height
    ensures r.Ok? ==> r.value == Obstacle(x, y, width, height)
    ensures r.Err? ==> r.error == IllegalArgument
  {
    if x < 0.0 || y < 0.0 || width < 0.0 || height < 0.0 then Err(IllegalArgument)
    else Ok(Obstacle(x, y, width, height))
  }

  /** Strict containment: the open interior of the rectangle. */
  predicate Contains(o: Obstacle, p: Point)
  {
    o.x < p.x < o.x + o.width && o.y < p.y < o.y + o.height
  }

  /** A point on the rectangle's border is not contained. */
  lemma BorderNotContained(o: Obstacle, p: Point)
    requires (o.x <= p.x <= o.x + o.width && (p.y == o.y || p.y == o.y + o.height))
          || (o.y <= p.y <= o.y + o.height && (p.x == o.x || p.x == o.x + o.width))
    ensures !Contains(o, p)
  {
  }

  /** An obstacle of zero width or zero height contains nothing. */
  lemma FlatContainsNothing(o: Obstacle, p: Point)
    requires o.width == 0.0 || o.height == 0.0
    ensures !Contains(o, p)
  {
  }

  /** The map: its extent and its obstacles, in construction order. */
  datatype Map = Map(width: real, height: real, obstacles: seq<Obstacle>)

  /** Whether some obstacle of `obs` contains `p`, scanning from the front. */
  function AnyContains(obs: seq<Obstacle>, p: Point): (b: bool)
    ensures b <==> exists i :: 0 <= i < |obs| && Contains(obs[i], p)
  {
    if obs == [] then false
    else if Contains(obs[0], p) then true
    else
      var rest := AnyContains(obs[1..], p);
      assert rest ==> exists i :: 1 <= i < |obs| && Contains(obs[i], p) by {
        if rest {
          var i :| 0 <= i < |obs[1..]| && Contains(obs[1..][i], p);
          assert Contains(obs[i + 1], p);
        }
      }
      rest
  }

  /** The source's `inObstacle`: scans the map's obstacles for one containing `p`. */
  function InObstacle(m: Map, p: Point): bool
  {
    AnyContains(m.obstacles, p)
  }

  /** A point is in an obstacle exactly when some obstacle of the map contains it. */
  lemma InObstacleIffContained(m: Map, p: Point)
    ensures InObstacle(m, p) <==> exists i :: 0 <= i < |m.obstacles| && Contains(m.obstacles[i], p)
  {
    var b := AnyContains(m.obstacles, p);
  }

  /** A map with no obstacles blocks nothing. */
  lemma EmptyMapBlocksNothing(m: Map, p: Point)
    requires m.obstacles == []
    ensures !InObstacle(m, p)
  {
  }

  /**
   * The source's map constructor: three obstacles at fixed fractions of the
   * extent. Each goes through the checked constructor, so a negative width
   * or height makes construction fail.
   */
  function NewMap(width: real, height: real): (r: Result<Map>)
    ensures r.Ok? <==> 0.0 <= width && 0.0 <= height
    ensures r.Err? ==> r.error == IllegalArgument
    ensures r.Ok? ==> r.value.width == width && r.value.height == height
    ensures r.Ok? ==> r.value.obstacles == [
                        Obstacle(0.0, 0.0, width * 0.5, height * 0.1),
                        Obstacle(width * 0.4, height * 0.3, width * 0.3, height * 0.3),
                        Obstacle(width * 0.2, height * 0.8, width * 0.6, height * 0.1)]
  {
    var bottom := NewObstacle(0.0, 0.0, width * 0.5, height * 0.1);
    var middle := NewObstacle(width * 0.4, height * 0.3, width * 0.3, height * 0.3);
    var top := NewObstacle(width * 0.2, height * 0.8, width * 0.6, height * 0.1);
    if bottom.Err? || middle.Err? || top.Err? then Err(IllegalArgument)
    else Ok(Map(width, height, [bottom.value, middle.value, top.value]))
  }

  /** The obstacle lies inside the map's rectangle `[0, width] x [0, height]`. */
  predicate InsideMap(o: Obstacle, width: real, height: real)
  {
    0.0 <= o.x && 0.0 <= o.y && 0.0 <= o.width && 0.0 <= o.height
    && o.x + o.width <= width && o.y + o.height <= height
  }

  /**
   * Every obstacle the constructor places lies inside the map, and the three
   * do not overlap: each point is in at most one of them.
   */
  lemma LayoutInsideMap(width: real, height: real)
    requires NewMap(width, height).Ok?
    ensures forall o :: o in NewMap(width, height).value.obstacles ==> InsideMap(o, width, height)
    ensures forall p: Point, i, j :: 0 <= i < j < 3 && Contains(NewMap(width, height).value.obstacles[i], p)
              ==> !Contains(NewMap(width, height).value.obstacles[j], p)
  {
  }
}
