# RobotGraphGen probabilistic roadmap, modelled in Dafny

RobotGraphGen builds a probabilistic roadmap (PRM) over a rectangular map that
holds three axis-aligned obstacles. It draws 2D sample points from a Halton
sequence, which pairs two Van der Corput sequences with bases 2 and 3. It scales
each point to the map and drops the points that fall strictly inside an
obstacle. It then connects each vertex to nearby vertices. A candidate must be
within distance `r`, and the straight edge to it must pass a sampled collision
check. That check walks the segment using a base-2 Van der Corput sequence and
stops once the part left unchecked is at most 10 map units long.

The repository has two versions of the graph builder, and both are modelled:

- **Root `Graph.java`.** It draws samples until 150 vertices are free. For each
  vertex it scans all other vertices from nearest to farthest, adding the edge
  to both endpoints' lists. It stops at the first candidate out of range, or
  once the vertex's own list has `k` entries.
- **Legacy `out/source/Graph.java`.** It makes exactly 150 draws. For each vertex
  it takes the `k` closest others, throwing `IllegalArgumentException` when
  `k > n - 1`. It removes those out of range or blocked, checking the edge from
  the neighbour to the vertex, and appends the rest to that vertex's list only.

The modules are:

| file | module | what it holds |
|---|---|---|
| `wrappers.dfy` | `Wrappers` | `Result` and `Outcome`, which model the thrown `IllegalArgumentException` |
| `van_der_corput.dfy` | `VanDerCorputSequence` | the radical inverse and the `VanDerCorput` class with its digit loop |
| `halton.dfy` | `Halton` | the `HaltonSequence` class over two `VanDerCorput` objects |
| `geometry.dfy` | `Geometry` | points, squared distance, the range test, linear interpolation |
| `obstacle_map.dfy` | `ObstacleMap` | obstacles, `contains`, `inObstacle`, the fixed three-obstacle layout |
| `sampling.dfy` | `Sampling` | constants, the i-th scaled sample, the samples that survive rejection |
| `collision.dfy` | `Collision` | `edgeIsValid` as a loop and as a specification, and its termination |
| `ranking.dfy` | `Ranking` | the distance priority queue as a ranking of the other vertices |
| `roadmap.dfy` | `RoadmapBuilder` | the root `Graph` class and its roadmap invariant |
| `legacy_roadmap.dfy` | `LegacyRoadmapBuilder` | the legacy `Graph` class, `kClosest` and the `removeIf` filter |
| `counterexamples.dfy` | `Counterexamples` | small roadmaps that show degree above `k`, repeated entries and asymmetry |

Doubles are modelled as exact reals. Distances are compared through their
squares. `FartherThanIsDistanceTest` and `CloserIsDistanceTest` prove that the
squared tests give the same answers as the source's `Math.sqrt` comparisons.
The collision loop guard `next_pos * d < d - 10` is modelled as
`(1 - t)^2 * Dist2 > 100`, and `GuardIsSourceTest` proves the two agree for
every `t` in `[0, 1]`.

### Properties proved

- **Van der Corput.** `Next` returns the radical inverse of the cursor. Its
  value lies in `[0, 1)` and equals the sum of digit `i` times `b^-(i+1)`.
  `Reset` makes the stream repeat.
- **Halton.** `Next` pairs the radical inverses of one shared cursor.
  Independently built instances yield identical streams.
- **Obstacles.** `inObstacle` holds if and only if some obstacle strictly
  contains the point. Borders and flat obstacles contain nothing. The obstacle
  constructor fails exactly on negative arguments, and the fixed layout lies
  inside the map.
- **Collision check.** The loop always terminates, with no fuel. Its verdict
  equals `EdgeValid`, which says every sample reached by the guard is free.
  Edges of length at most 10 are always valid. With no obstacles, every edge is
  valid.
- **Root builder.**
  - The lists are exactly those that every vertex's scan, in index order,
    produces over a distance ranking of the other vertices.
  - Every list entry is a different vertex within `r`, joined by a valid edge.
  - The lists are symmetric as multisets.
  - Each vertex's own scan adds at most `k - size` entries. Those entries are
    in nondecreasing distance order.
  - When the scan ends with the list still short of `k`, every queued vertex
    within `r` with a valid edge was accepted.
- **Legacy builder.**
  - It fails exactly when `k > n - 1` for a non-empty vertex set.
  - Otherwise list `i` is a distinct, distance-sorted subset of the `k` nearest
    others. Each entry is within `r` and has a valid edge to `i`.
  - No omitted vertex is nearer than a listed one.
  - Every one of the `k` nearest that is in range and unblocked is listed.

## Model

| member | source | states |
|---|---|---|
| `VanDerCorputSequence.VanDerCorput.constructor` | out/source/VanDerCorput.java:9-12 | the cursor starts at 0 and the base is stored as given |
| `VanDerCorputSequence.VanDerCorput.Next` | out/source/VanDerCorput.java:14-27 | returns the radical inverse of the old cursor in the stored base, a value in `[0, 1)`, and advances the cursor by exactly one |
| `VanDerCorputSequence.AccumulateDigit` | out/source/VanDerCorput.java:19-23 | one loop pass adds the next base-b digit at weight `b^-(k+1)`, divides the multiplier by b and strictly shrinks n, keeping the digit-expansion invariant |
| `VanDerCorputSequence.VanDerCorput.Reset` | out/source/VanDerCorput.java:29-31 | rewinds the cursor to 0 and keeps the base |
| `VanDerCorputSequence.RadicalInverse` | out/source/VanDerCorput.java:14-27 | the digit-reversal value of n in base b is always in `[0, 1)` |
| `VanDerCorputSequence.QuotientSmaller` | out/source/VanDerCorput.java:19-22 | integer division by a base of at least 2 strictly decreases a positive n, so the digit loop terminates |
| `VanDerCorputSequence.RadicalInverseIsDigitExpansion` | out/source/VanDerCorput.java:17-23 | the radical inverse equals the sum over the base-b digits of n of digit `i` times `b^-(i+1)` |
| `VanDerCorputSequence.Digits` | out/source/VanDerCorput.java:20-22 | every extracted digit `n % b` lies in `[0, b)` |
| `VanDerCorputSequence.BaseTwoPrefix` | out/source/VanDerCorput.java:14-27 | in base 2 the first four draws are 0, 1/2, 1/4 and 3/4; in particular cursor 0 yields exactly 0.0 |
| `VanDerCorputSequence.TopValue` | out/source/VanDerCorput.java:17-23 | in base 2, cursor `2^m - 1` yields `1 - 2^-m`, so the draws come arbitrarily close to 1 |
| `VanDerCorputSequence.Draw` | out/source/VanDerCorput.java:14-27 | `count` successive draws are the radical inverses of the consecutive cursors from the current one |
| `VanDerCorputSequence.DrawTwice` | out/source/VanDerCorput.java:29-31 | after `reset` the generator replays exactly the values it produced from a fresh start, namely the radical inverses of 0, 1, 2, ... |
| `Halton.HaltonSequence.constructor` | HaltonSequence.java:5-8 | builds two fresh generators with bases p and q, both at cursor 0 |
| `Halton.HaltonSequence.Next` | HaltonSequence.java:10-15 | returns the pair of radical inverses of the shared old cursor in bases p and q, both in `[0, 1)`, and advances both generators together |
| `Halton.HaltonSequence.Reset` | HaltonSequence.java:17-20 | rewinds both generators to cursor 0 and keeps their bases |
| `Halton.HaltonPoint` | HaltonSequence.java:10-15 | the n-th Halton point lies in `[0,1) x [0,1)` |
| `Halton.Take` | HaltonSequence.java:10-15 | `count` successive draws are the Halton points of consecutive cursors, and both cursors advance by `count` |
| `Halton.SameStream` | HaltonSequence.java:5-20 | two independently constructed sequences, and one sequence after `reset`, yield the identical stream `(RI(p, i), RI(q, i))` |
| `ObstacleMap.NewObstacle` | out/source/Map.java:53-61 | succeeds exactly when x, y, width and height are all non-negative, keeping them unchanged; otherwise fails with an illegal-argument error |
| `ObstacleMap.BorderNotContained` | out/source/Map.java:63-66 | a point on any of the four sides of an obstacle is not contained, because containment is strict |
| `ObstacleMap.FlatContainsNothing` | out/source/Map.java:63-66 | an obstacle of zero width or zero height contains no point |
| `ObstacleMap.AnyContains` | out/source/Map.java:41-48 | the early-return scan over the obstacle list is true exactly when some obstacle contains the point |
| `ObstacleMap.InObstacleIffContained` | out/source/Map.java:41-48 | `inObstacle` holds exactly when some obstacle of the map contains the point |
| `ObstacleMap.EmptyMapBlocksNothing` | out/source/Map.java:41-48 | a map without obstacles blocks no point |
| `ObstacleMap.NewMap` | out/source/Map.java:10-19 | fails exactly when the width or height is negative, because an obstacle constructor throws; otherwise keeps the extents and installs the three scaled obstacles in order |
| `ObstacleMap.LayoutInsideMap` | out/source/Map.java:10-19 | every obstacle of the fixed layout lies inside the map and no two of them overlap |
| `Geometry.Dist2` | Graph.java:198-202 | the squared distance is non-negative |
| `Geometry.Dist2Symmetric` | Graph.java:198-202 | distance does not depend on argument order |
| `Geometry.FartherThanIsDistanceTest` | Graph.java:184-185 | the squared-distance range test agrees with `distance(a, b) > r` for the true Euclidean distance |
| `Geometry.CloserIsDistanceTest` | Graph.java:161-166 | comparing squared distances orders candidates exactly as the queue comparator's Euclidean distances do |
| `Geometry.Lerp` | Graph.java:125-128 | the check point at `t = 0` is v1 and at `t = 1` is v2 |
| `Sampling.KeptSamples` | Graph.java:85-103 | after n draws at most n vertices have been kept |
| `Sampling.KeptSamplesStep` | Graph.java:91-101 | one more draw appends the scaled Halton point exactly when it is not in an obstacle |
| `Sampling.KeptSamplesAreFree` | Graph.java:99-101 | every kept vertex is outside all obstacles and is one of the first n scaled samples |
| `Sampling.NoObstaclesKeepsAll` | Graph.java:99-101 | without obstacles every draw is kept |
| `Sampling.KeptSamplesGrow` | Graph.java:99-101 | each draw extends the kept list by a suffix of at most one vertex |
| `Sampling.SampleInsideMap` | Graph.java:94-97 | every scaled sample lies inside `[0, width] x [0, height]` |
| `Collision.EdgeIsValid` | Graph.java:114-138 | the loop's verdict is exactly `EdgeValid`: every check point the guard reaches is free |
| `Collision.StopIndex` | Graph.java:123 | some draw of the base-2 sequence fails the guard, so the check loop terminates for every pair of points |
| `Collision.StopsAtTop` | Graph.java:123 | the guard fails at the base-2 draw `1 - 2^-k` once the squared edge length is at most `k` |
| `Collision.ShortEdgeValid` | Graph.java:118-123 | an edge no longer than the precision checks no point and is valid |
| `Collision.LongEdgeChecksStart` | Graph.java:119-132 | a longer edge checks its first endpoint, since the first draw is 0, and is invalid when that endpoint is in an obstacle |
| `Collision.NoObstaclesAllValid` | Graph.java:130-132 | every edge is valid on a map without obstacles |
| `Collision.GuardIsSourceTest` | Graph.java:123 | for `t` in `[0, 1]` the modelled guard is exactly `next_pos * total_distance < total_distance - 10` |
| `Collision.GuardIsDistanceToEnd` | Graph.java:123 | the guard holds exactly when the check point is farther than 10 from v2 |
| `Ranking.Distances` | Graph.java:161-166 | one distance key per vertex |
| `Ranking.RankOthers` | Graph.java:161-174 | produces a ranking: every vertex but the current one, each once, in nondecreasing distance order |
| `Ranking.RankingFacts` | Graph.java:168-174 | a ranking has `n - 1` entries, omits the current vertex, has no repeats and contains every other vertex |
| `Ranking.Insert` | Graph.java:173 | an insertion into the queue keeps it in range and sorted and adds exactly the new index to its multiset |
| `Ranking.InsertCounts` | Graph.java:173 | an insertion lengthens the queue by one and adds exactly one occurrence of the new index, leaving every other count unchanged |
| `Ranking.CountsStep` | Graph.java:169-173 | one pass of the queue-filling loop: if the queue held each index below x except the current vertex once, after index x it holds each index below x + 1 except the current vertex once |
| `Ranking.PartialRanking` | Graph.java:169-174 | for every n, some sorted in-range queue holds exactly the indices below n other than the current vertex, each once |
| `Ranking.RankingExists` | Graph.java:161-174 | every vertex has a ranking of the other vertices, including one the early return never builds |
| `Ranking.InsertKeepsOrder` | Graph.java:173 | inserting at the first position with a larger key keeps the queue sorted |
| `Ranking.RankingCandidates` | Graph.java:168-174 | a ranking holds only in-range indices other than the current vertex |
| `RoadmapBuilder.Graph.constructor` | Graph.java:23-37 | the new roadmap consists of the kept samples of some number of draws within the budget, 150 of them unless the budget ran out, and satisfies the roadmap invariant; its lists are those of every vertex's scan in order, each over a ranking of the other vertices |
| `RoadmapBuilder.Graph.BuildGraph` | Graph.java:68-83 | the vertices are the kept samples, 150 of them unless the draw budget ran out; the lists are the result of every vertex's scan in order, and they satisfy the roadmap invariant |
| `RoadmapBuilder.Graph.GenerateVertices` | Graph.java:85-103 | appends the kept samples of the draws made, stops at 150 vertices, and draws only while short |
| `RoadmapBuilder.Graph.DrawVertex` | Graph.java:91-101 | one pass of the sampling loop advances the Halton cursor by one and extends the vertices to the kept samples of one more draw |
| `RoadmapBuilder.Graph.AddEmptyLists` | Graph.java:74-76 | one empty list per vertex, coordinates unchanged |
| `RoadmapBuilder.Graph.ConnectAll` | Graph.java:79-82 | after the edge loop the lists are those of every vertex's scan in index order, each over a ranking of the other vertices |
| `RoadmapBuilder.Graph.ConnectNext` | Graph.java:81 | one pass of the edge loop extends the lists by the next vertex's scan over a ranking of the other vertices |
| `RoadmapBuilder.DrewWhileShortStep` | Graph.java:89 | a draw made while fewer than 150 vertices are kept is a draw the source makes |
| `RoadmapBuilder.Graph.UpdateNeighbors` | Graph.java:150-196 | the lists become those of `Accepted` for this vertex; the queue is a ranking of the other vertices, and when the early return is taken (list already full) nothing is accepted and the lists are unchanged |
| `RoadmapBuilder.Graph.ScanQueue` | Graph.java:179-195 | popping the queue adds exactly the `ScanResult` entries, both ways |
| `RoadmapBuilder.Graph.Connect` | Graph.java:190-194 | appends the other vertex to this vertex's list and this vertex to the other's, changing nothing else |
| `RoadmapBuilder.Accepted` | Graph.java:179-195 | the candidates accepted by one vertex's scan are in range |
| `RoadmapBuilder.ScanResultIsAccepted` | Graph.java:179-194 | the scan driven by the collision verdicts equals `Accepted`, the scan written with `EdgeValid` |
| `RoadmapBuilder.AcceptAdvance` | Graph.java:179-195 | one pop breaks on an out-of-range candidate, adds a valid one and skips a blocked one |
| `RoadmapBuilder.AcceptedFacts` | Graph.java:179-194 | every accepted vertex is another vertex within `r` with a valid edge, and the vertex's own list never grows past `max(size, k)` |
| `RoadmapBuilder.AcceptedSorted` | Graph.java:161-185 | the accepted vertices are in nondecreasing distance order |
| `RoadmapBuilder.FartherThanMonotone` | Graph.java:184-185 | once a candidate is out of range every later one in the queue is too, so the `break` loses nothing |
| `RoadmapBuilder.AcceptedComplete` | Graph.java:179-194 | while the list stays below `k`, every in-range queued vertex with a valid edge is accepted |
| `RoadmapBuilder.ConnectedInvStep` | Graph.java:179-195 | one vertex's scan preserves the roadmap invariant |
| `RoadmapBuilder.AddEdge` | Graph.java:190-194 | adding an edge keeps one list per vertex |
| `RoadmapBuilder.AddEdgeKeepsInv` | Graph.java:190-194 | adding a valid in-range edge to both endpoints preserves the roadmap invariant (valid entries and multiset symmetry) |
| `RoadmapBuilder.AddEdgeEntries` | Graph.java:190-194 | adding a valid in-range edge keeps every entry a valid in-range neighbour |
| `RoadmapBuilder.AddEdgeSymmetric` | Graph.java:190-194 | adding to both endpoints keeps the count of `j` in list `i` equal to the count of `i` in list `j` |
| `RoadmapBuilder.AddAll` | Graph.java:179-195 | applying a vertex's accepted edges keeps one list per vertex |
| `RoadmapBuilder.AddAllLists` | Graph.java:191-194 | after a scan the vertex's list gains exactly the accepted vertices, and every other vertex gains one entry per time it was accepted |
| `RoadmapBuilder.AddAllKeepsInv` | Graph.java:179-195 | a whole scan of valid in-range edges preserves the roadmap invariant |
| `RoadmapBuilder.Connected` | Graph.java:78-82 | running the first n scans keeps one list per vertex |
| `RoadmapBuilder.ConnectedInv` | Graph.java:68-83 | for free vertices, the lists after any number of scans satisfy the roadmap invariant: each entry is another vertex within `r` joined by a valid edge, and the lists are symmetric as multisets |
| `LegacyRoadmapBuilder.Graph.constructor` | out/source/Graph.java:23-25 | the new graph has no coordinates and no lists before building |
| `LegacyRoadmapBuilder.NewGraph` | out/source/Graph.java:23-35 | fails exactly when `k > n - 1` for the non-empty kept samples; otherwise the vertices are the kept samples of 150 draws, the lists are exactly `Lists` over rankings of every vertex, and list i is `ListOk` for its ranking |
| `LegacyRoadmapBuilder.Graph.BuildGraph` | out/source/Graph.java:97-140 | vertices are the kept samples of 150 draws, all free; fails with an illegal-argument error exactly when `k > n - 1` on a non-empty set, leaving empty lists; otherwise the lists are `Lists` over full rankings |
| `LegacyRoadmapBuilder.Graph.GenerateVertices` | out/source/Graph.java:100-114 | exactly 150 draws, keeping the free ones in draw order |
| `LegacyRoadmapBuilder.Graph.DrawSample` | out/source/Graph.java:103-113 | one pass of the draw loop advances both generators by one and extends the vertices to the kept samples of one more draw |
| `LegacyRoadmapBuilder.Graph.AddEmptyLists` | out/source/Graph.java:118-120 | one empty list per vertex, coordinates unchanged |
| `LegacyRoadmapBuilder.Graph.NextVertex` | out/source/Graph.java:123-139 | one pass of the edge loop fails exactly when `kClosest` throws; otherwise it extends the lists by this vertex's kept closest neighbours |
| `LegacyRoadmapBuilder.Graph.TakeNeighbors` | out/source/Graph.java:130-138 | fails exactly when `kClosest` throws; otherwise it appends to this vertex's list exactly the kept part of the first `k` of a ranking |
| `LegacyRoadmapBuilder.Graph.KClosest` | out/source/Graph.java:189-220 | throws exactly when the points are empty or `k > n - 1`; otherwise returns the first `max(k, 0)` entries of a ranking of the other points |
| `LegacyRoadmapBuilder.Graph.RemoveBlocked` | out/source/Graph.java:131-135 | keeps, in order, exactly the candidates within `r` whose reversed edge check passes |
| `LegacyRoadmapBuilder.ClosestPrefix` | out/source/Graph.java:199-219 | the first k entries of a ranking are k distinct, sorted candidates, and no omitted vertex is nearer than any of them |
| `LegacyRoadmapBuilder.Kept` | out/source/Graph.java:131-135 | filtering never lengthens the list and keeps indices in range |
| `LegacyRoadmapBuilder.SurvivorsAreKept` | out/source/Graph.java:131-135 | the filter driven by the collision verdicts equals `Kept`, the filter written with `EdgeValid` |
| `LegacyRoadmapBuilder.SurvivorsAdvance` | out/source/Graph.java:131-135 | one filter step drops an out-of-range or blocked candidate and keeps the others |
| `LegacyRoadmapBuilder.KeptFacts` | out/source/Graph.java:131-135 | every kept vertex was a candidate, is within `r` and has a valid edge towards the current vertex |
| `LegacyRoadmapBuilder.KeptDistinct` | out/source/Graph.java:131-135 | filtering distinct candidates leaves distinct vertices |
| `LegacyRoadmapBuilder.KeptSorted` | out/source/Graph.java:131-135 | filtering keeps the nearest-first order |
| `LegacyRoadmapBuilder.KeptComplete` | out/source/Graph.java:131-135 | every candidate within `r` whose edge passes is kept |
| `LegacyRoadmapBuilder.Lists` | out/source/Graph.java:123-139 | after n passes, lists from n onwards are still empty |
| `LegacyRoadmapBuilder.ListsAt` | out/source/Graph.java:138 | list i after the loop is exactly the kept part of vertex i's k closest |
| `LegacyRoadmapBuilder.ListsSnoc` | out/source/Graph.java:123-139 | one more pass sets only the next vertex's list |
| `LegacyRoadmapBuilder.PassStep` | out/source/Graph.java:123-139 | setting the next vertex's list to its kept closest extends `Lists` by that vertex's ranking, keeping every queue a ranking |
| `LegacyRoadmapBuilder.ListOkOne` | out/source/Graph.java:130-138 | the kept k closest of vertex i form a distinct, sorted list of at most k in-range, unblocked vertices among its k nearest, and no omitted vertex is nearer than a listed one; every one of the k nearest that is within r and whose edge passes is listed |
| `LegacyRoadmapBuilder.ListsOk` | out/source/Graph.java:123-139 | every vertex's list satisfies `ListOk` |
| `Counterexamples.DegreeCanExceedK` | Graph.java:189-194 | with `k = 1`, three collinear points give the middle vertex two neighbours, because reciprocal entries are not capped |
| `Counterexamples.PairCanRepeat` | Graph.java:179-194 | with `k = 2` and two vertices, each list holds the other vertex twice, because both scans accept the same edge |
| `Counterexamples.NotSymmetric` | out/source/Graph.java:137-138 | with `k = 1` the legacy lists are not symmetric: vertex 2 lists vertex 1 but vertex 1 does not list vertex 2 |
| `Counterexamples.DegreeCanExceedKWitness` | Graph.java:189-194 | the points (0,0), (1,0) and (3,0) with `r = 2` meet the hypotheses of `DegreeCanExceedK` and are ranked by its queues, so with `k = 1` vertex 1 ends with neighbours 0 and 2 on any map |
| `Counterexamples.NotSymmetricWitness` | out/source/Graph.java:130-138 | the points (0,0), (1,0) and (3,0) with `r = 2` meet the hypotheses of `NotSymmetric` |

## Left out

- Rendering (`render` of both graphs, the map and the obstacles) and the
  `System.out` printing in both constructors are not modelled. They only draw
  or print.
- Floating point is not modelled: doubles are exact reals, so rounding, NaN and
  infinities are absent. `Math.sqrt` and `Math.pow` are replaced by squared
  distances, with lemmas that show the comparisons agree.
- Java `int` overflow of the sequence cursor and of vertex indices is not
  modelled. Indices are unbounded naturals, which is faithful for the at most
  150 vertices and bounded cursors the builders use.
- `PriorityQueue` tie order is not modelled. The builders' contracts hold for
  any queue contents that are a ranking (`IsRanking`), because the source's
  comparator never returns 0 and so fixes no order between equal distances.
  `Ranking.RankOthers` produces one such ranking.
- `RoadmapBuilder.Graph.GenerateVertices`: the source loops forever when the
  obstacles reject every sample, so the method takes a draw budget
  (`maxDraws`). It promises 150 vertices only when the budget is not exhausted.
  `RoadmapBuilder.Graph.BuildGraph` and `RoadmapBuilder.Graph.constructor`
  inherit this budget.
- `VanDerCorputSequence.VanDerCorput.Next` requires a base of at least 2. The
  source does not check its base: base 1 never leaves the loop and base 0
  divides by zero. The builders always use bases 2 and 3.
- `Halton.HaltonSequence.Next` requires both bases to be at least 2, for the
  same reason.
- `LegacyRoadmapBuilder.Graph.KClosest` requires `pointIndex` to be in range
  when the points are non-empty. The source would throw an index exception
  there, and its only caller never passes such an index.
- The queue is modelled as a sequence walked by position rather than by
  `remove()`. The collision verdicts that the scans compute with
  `Collision.EdgeIsValid` also feed a ghost sequence, which connects the loop to
  its specification.
- `removeIf` is modelled as building the filtered sequence rather than
  shrinking the list in place. Nothing else refers to the list, so no alias
  can observe the difference.
- `numVertices` in both builders is read directly as `|coordinates|`; it
  computes nothing beyond the list length.
- `getWidth` and `getHeight` are the `width` and `height` fields of the `Map`
  datatype.
- The map and obstacles are values (datatypes), since the source never updates
  them after construction.
- Exceptions (`IllegalArgumentException` from the obstacle constructor and from
  `kClosest`) are modelled as `Result.Err` or `Outcome.Fail` values.
  `LegacyRoadmapBuilder.NewGraph` returns `Err` where the constructor would
  throw.
