/**
 * Concrete roadmaps that show what the two builders do not promise. In the
 * current builder the fan-out bound `k` caps only a vertex's own search,
 * and one pair can be joined twice. In the older builder the lists are not
 * symmetric.
 */
module Counterexamples {
  import opened Geometry
  import opened ObstacleMap
  import opened Collision
  import opened Ranking
  import opened RoadmapBuilder
  import opened LegacyRoadmapBuilder

  /** `a` and `b` lie within `r` of each other and their edge is at most 10 long. */
  predicate Near(a: Point, b: Point, r: real)
  {
    !FartherThan(a, b, r) && Dist2(a, b) <= EdgeCheckPrecision * EdgeCheckPrecision
  }

  /** The queues of three vertices when vertex 1 is the nearest to both ends. */
  function Queues(): seq<seq<nat>>
  {
    [[1, 2], [0, 2], [1, 0]]
  }

  /** Each of `Queues` lists the other two vertices. */
  lemma QueuesCandidates()
    ensures AllCandidates(3, Queues(), 3) && forall j :: 0 <= j < 3 ==> 1 <= |Queues()[j]|
  {
    var rs := Queues();
    assert Candidates(3, 0, rs[0]) && Candidates(3, 1, rs[1]) && Candidates(3, 2, rs[2]);
  }

  /** Among three vertices, vertex `i` ranks the other two by distance. */
  lemma TwoRanked(c: seq<Point>, i: nat, a: nat, b: nat)
    requires |c| == 3 && i < 3 && a < 3 && b < 3 && i != a && i != b && a != b
    requires Dist2(c[i], c[a]) <= Dist2(c[i], c[b])
    ensures IsRanking(Distances(c, c[i]), i, [a, b])
  {
    var d := Distances(c, c[i]);
    assert d[a] == Dist2(c[i], c[a]) && d[b] == Dist2(c[i], c[b]);
    assert multiset([a, b]) == multiset{a, b};
  }

  /** `Queues` are rankings when vertex 1 is the nearest to both ends. */
  lemma QueuesRanked(p0: Point, p1: Point, p2: Point)
    requires Dist2(p0, p1) <= Dist2(p0, p2) && Dist2(p1, p0) <= Dist2(p1, p2) && Dist2(p2, p1) <= Dist2(p2, p0)
    ensures AllRanked([p0, p1, p2], Queues(), 3)
  {
    var c := [p0, p1, p2];
    TwoRanked(c, 0, 1, 2);
    TwoRanked(c, 1, 0, 2);
    TwoRanked(c, 2, 1, 0);
  }

  // The current builder.

  /** A vertex whose list is short of `k` accepts a single near candidate. */
  lemma AcceptSingle(size: nat, coords: seq<Point>, c: nat, x: nat, k: int, r: real, m: Map)
    requires c < |coords| && x < |coords| && size < k
    requires Near(coords[c], coords[x], r)
    ensures Accepted(size, coords, c, [x], k, r, m) == [x]
  {
    ShortEdgeValid(coords[c], coords[x], m);
    assert [x][1..] == [];
  }

  /** A vertex whose list already holds `k` entries accepts nothing. */
  lemma AcceptNone(size: nat, coords: seq<Point>, c: nat, q: seq<nat>, k: int, r: real, m: Map)
    requires c < |coords| && InRange(|coords|, q) && size >= k
    ensures Accepted(size, coords, c, q, k, r, m) == []
  {
  }

  /** One more vertex runs its search. */
  lemma ConnectedStep(coords: seq<Point>, rs: seq<seq<nat>>, n: nat, k: int, r: real, m: Map, prev: seq<seq<nat>>, acc: seq<nat>)
    requires n < |coords| && AllCandidates(|coords|, rs, n + 1)
    requires prev == Connected(coords, rs, n, k, r, m)
    requires Candidates(|coords|, n, rs[n]) && acc == Accepted(|prev[n]|, coords, n, rs[n], k, r, m)
    ensures Connected(coords, rs, n + 1, k, r, m) == AddAll(prev, n, acc)
  {
  }

  lemma AddAllSingle(nbrs: seq<seq<nat>>, c: nat, x: nat)
    requires c < |nbrs| && x < |nbrs|
    ensures AddAll(nbrs, c, [x]) == AddEdge(nbrs, c, x)
  {
    assert [x][1..] == [];
  }

  /** With `k == 1`, vertex 0's scan takes vertex 1. */
  lemma LineFirstSearch(p0: Point, p1: Point, p2: Point, r: real, m: Map)
    requires Near(p0, p1, r)
    ensures AllCandidates(3, Queues(), 3)
    ensures Connected([p0, p1, p2], Queues(), 1, 1, r, m) == [[1], [0], []]
  {
    var c := [p0, p1, p2];
    var rs := Queues();
    QueuesCandidates();
    var e := Connected(c, rs, 0, 1, r, m);
    assert e == [[], [], []];
    var a0 := Accepted(0, c, 0, rs[0], 1, r, m);
    assert a0 == [1] by {
      AcceptNone(1, c, 0, [2], 1, r, m);
      ShortEdgeValid(c[0], c[1], m);
      assert rs[0][1..] == [2];
    }
    ConnectedStep(c, rs, 0, 1, r, m, e, a0);
    AddAllSingle(e, 0, 1);
    var n1 := AddEdge(e, 0, 1);
    assert n1[0] == [1] && n1[1] == [0] && n1[2] == [];
  }

  /** With `k == 1`, vertex 0 takes vertex 1, and vertex 1, already full, takes nothing. */
  lemma LineFirstSearches(p0: Point, p1: Point, p2: Point, r: real, m: Map)
    requires Near(p0, p1, r)
    ensures AllCandidates(3, Queues(), 3)
    ensures Connected([p0, p1, p2], Queues(), 2, 1, r, m) == [[1], [0], []]
  {
    var c := [p0, p1, p2];
    var rs := Queues();
    LineFirstSearch(p0, p1, p2, r, m);
    var n1: seq<seq<nat>> := [[1], [0], []];
    var a1 := Accepted(|n1[1]|, c, 1, rs[1], 1, r, m);
    AcceptNone(1, c, 1, rs[1], 1, r, m);
    ConnectedStep(c, rs, 1, 1, r, m, n1, a1);
  }

  /**
   * With `k == 1` the middle vertex of three near ones ends with two
   * neighbours: vertex 0 takes it, then vertex 2 takes it too, and the
   * reciprocal append is not capped. By `QueuesRanked` these queues are ones
   * the source's distance-ordered queue yields when vertex 1 is the nearest
   * to both ends.
   */
  lemma DegreeCanExceedK(p0: Point, p1: Point, p2: Point, r: real, m: Map)
    requires Near(p0, p1, r) && Near(p2, p1, r)
    ensures AllCandidates(3, Queues(), 3)
    ensures Connected([p0, p1, p2], Queues(), 3, 1, r, m)[1] == [0, 2]
  {
    var c := [p0, p1, p2];
    var rs := Queues();
    LineFirstSearches(p0, p1, p2, r, m);
    var n2: seq<seq<nat>> := [[1], [0], []];
    var a2 := Accepted(0, c, 2, rs[2], 1, r, m);
    assert a2 == [1] by {
      AcceptNone(1, c, 2, [0], 1, r, m);
      ShortEdgeValid(c[2], c[1], m);
      assert rs[2][1..] == [0];
    }
    ConnectedStep(c, rs, 2, 1, r, m, n2, a2);
    AddAllSingle(n2, 2, 1);
    assert AddEdge(n2, 2, 1)[1] == [0, 2];
  }

  /** The queues of `PairCanRepeat` are the only rankings of two vertices. */
  lemma PairRankings(p0: Point, p1: Point)
    ensures AllRanked([p0, p1], [[1], [0]], 2)
    ensures AllCandidates(2, [[1], [0]], 2)
  {
    var c := [p0, p1];
    assert Distances(c, c[0]) == [Dist2(p0, p0), Dist2(p0, p1)];
    assert Distances(c, c[1]) == [Dist2(p1, p0), Dist2(p1, p1)];
  }

  /** Vertex 0 takes vertex 1, and 1 lists 0 in return. */
  lemma PairFirstSearch(p0: Point, p1: Point, r: real, m: Map)
    requires Near(p0, p1, r)
    ensures AllCandidates(2, [[1], [0]], 2)
    ensures Connected([p0, p1], [[1], [0]], 1, 2, r, m) == [[1], [0]]
  {
    var c := [p0, p1];
    var rs: seq<seq<nat>> := [[1], [0]];
    PairRankings(p0, p1);
    var e := Connected(c, rs, 0, 2, r, m);
    assert e == [[], []];
    AcceptSingle(0, c, 0, 1, 2, r, m);
    ConnectedStep(c, rs, 0, 2, r, m, e, [1]);
    AddAllSingle(e, 0, 1);
    var n1 := AddEdge(e, 0, 1);
    assert n1[0] == [1] && n1[1] == [0];
  }

  /**
   * With `k == 2` two near vertices join each other twice: vertex 0 takes 1,
   * and vertex 1, whose list then holds one entry, takes 0 again.
   */
  lemma PairCanRepeat(p0: Point, p1: Point, r: real, m: Map)
    requires Near(p0, p1, r) && Near(p1, p0, r)
    ensures AllRanked([p0, p1], [[1], [0]], 2)
    ensures AllCandidates(2, [[1], [0]], 2)
    ensures Connected([p0, p1], [[1], [0]], 2, 2, r, m) == [[1, 1], [0, 0]]
  {
    var c := [p0, p1];
    var rs: seq<seq<nat>> := [[1], [0]];
    PairRankings(p0, p1);
    PairFirstSearch(p0, p1, r, m);
    var n1: seq<seq<nat>> := [[1], [0]];
    AcceptSingle(1, c, 1, 0, 2, r, m);
    ConnectedStep(c, rs, 1, 2, r, m, n1, [0]);
    AddAllSingle(n1, 1, 0);
    var n2 := AddEdge(n1, 1, 0);
    assert n2[0] == [1, 1] && n2[1] == [0, 0];
  }

  // The older builder.

  /** A single near candidate survives the filter, whichever way its edge is checked. */
  lemma KeepSingle(coords: seq<Point>, c: nat, x: nat, r: real, m: Map)
    requires c < |coords| && x < |coords| && Near(coords[c], coords[x], r)
    ensures Kept(coords, c, [x], r, m) == [x]
  {
    Dist2Symmetric(coords[c], coords[x]);
    ShortEdgeValid(coords[x], coords[c], m);
    assert [x][1..] == [];
  }

  /** With `k == 1`, vertices 0 and 1 of the older builder take each other. */
  lemma FirstTwoLists(p0: Point, p1: Point, p2: Point, r: real, m: Map)
    requires Near(p0, p1, r) && Near(p1, p0, r)
    ensures AllCandidates(3, Queues(), 3) && forall j :: 0 <= j < 3 ==> 1 <= |Queues()[j]|
    ensures Lists([p0, p1, p2], Queues(), 2, 1, r, m) == [[1], [0], []]
  {
    var c := [p0, p1, p2];
    var rs := Queues();
    QueuesCandidates();
    assert rs[0][..1] == [1] && rs[1][..1] == [0];
    KeepSingle(c, 0, 1, r, m);
    KeepSingle(c, 1, 0, r, m);
    var l0 := Lists(c, rs, 0, 1, r, m);
    assert l0 == [[], [], []];
    var l1 := Lists(c, rs, 1, 1, r, m);
    assert l1 == l0[0 := [1]];
    assert Lists(c, rs, 2, 1, r, m) == l1[1 := [0]];
  }

  /**
   * With `k == 1` the older builder's lists are not symmetric: vertex 2
   * lists vertex 1, but vertex 1, whose closest is vertex 0, does not list 2.
   * `NotSymmetricWitness` gives three points that meet the requirements.
   */
  lemma NotSymmetric(p0: Point, p1: Point, p2: Point, r: real, m: Map)
    requires Near(p0, p1, r) && Near(p1, p0, r) && Near(p2, p1, r)
    ensures AllCandidates(3, Queues(), 3) && forall j :: 0 <= j < 3 ==> 1 <= |Queues()[j]|
    ensures 1 in Lists([p0, p1, p2], Queues(), 3, 1, r, m)[2]
    ensures 2 !in Lists([p0, p1, p2], Queues(), 3, 1, r, m)[1]
  {
    var c := [p0, p1, p2];
    var rs := Queues();
    FirstTwoLists(p0, p1, p2, r, m);
    assert rs[2][..1] == [1];
    KeepSingle(c, 2, 1, r, m);
    var l2: seq<seq<nat>> := [[1], [0], []];
    assert Lists(c, rs, 3, 1, r, m) == l2[2 := [1]];
  }

  /**
   * The points `(0, 0)`, `(1, 0)` and `(3, 0)` with `r == 2` meet the
   * requirements of `NotSymmetric`, and their queues are `Queues`.
   */
  lemma NotSymmetricWitness()
    ensures Near(Point(0.0, 0.0), Point(1.0, 0.0), 2.0) && Near(Point(1.0, 0.0), Point(0.0, 0.0), 2.0)
    ensures Near(Point(3.0, 0.0), Point(1.0, 0.0), 2.0)
    ensures AllRanked([Point(0.0, 0.0), Point(1.0, 0.0), Point(3.0, 0.0)], Queues(), 3)
  {
    QueuesRanked(Point(0.0, 0.0), Point(1.0, 0.0), Point(3.0, 0.0));
  }

  /**
   * The same three points with `r == 2` meet the requirements of
   * `DegreeCanExceedK`, and `Queues` ranks them: with `k == 1` vertex
   * `(1, 0)` ends with the two neighbours 0 and 2, on any map.
   */
  lemma DegreeCanExceedKWitness(m: Map)
    ensures Near(Point(0.0, 0.0), Point(1.0, 0.0), 2.0) && Near(Point(3.0, 0.0), Point(1.0, 0.0), 2.0)
    ensures AllRanked([Point(0.0, 0.0), Point(1.0, 0.0), Point(3.0, 0.0)], Queues(), 3)
    ensures AllCandidates(3, Queues(), 3)
    ensures Connected([Point(0.0, 0.0), Point(1.0, 0.0), Point(3.0, 0.0)], Queues(), 3, 1, 2.0, m)[1] == [0, 2]
  {
    QueuesRanked(Point(0.0, 0.0), Point(1.0, 0.0), Point(3.0, 0.0));
    DegreeCanExceedK(Point(0.0, 0.0), Point(1.0, 0.0), Point(3.0, 0.0), 2.0, m);
  }
}
