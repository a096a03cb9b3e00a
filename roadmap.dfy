/**
 * The current roadmap builder (`Graph.java` at the top of the repository).
 *
 * Vertices are Halton points kept until there are 150 of them. Then each
 * vertex in turn drains its distance-ordered queue of the other vertices:
 * the scan stops at the first candidate farther than `r` or once the
 * vertex's own list holds `k` entries, skips candidates whose edge is
 * blocked, and appends every accepted edge to both endpoints' lists.
 */
module RoadmapBuilder {
  import opened Geometry
  import opened Halton
  import opened ObstacleMap
  import opened Sampling
  import opened Collision
  import opened Ranking

  /**
   * The candidates `updateNeighbors` accepts from the queue `q` of vertex
   * `c`, in the order it accepts them, when the vertex's list starts with
   * `size` entries.
   */
  ghost function Accepted(size: nat, coords: seq<Point>, c: nat, q: seq<nat>, k: int, r: real, m: Map): (a: seq<nat>)
    requires c < |coords| && InRange(|coords|, q)
    ensures InRange(|coords|, a)
    decreases |q|
  {
    if size >= k || q == [] then []
    else if FartherThan(coords[c], coords[q[0]], r) then []
    else if EdgeValid(coords[c], coords[q[0]], m) then [q[0]] + Accepted(size + 1, coords, c, q[1..], k, r, m)
    else Accepted(size, coords, c, q[1..], k, r, m)
  }

  /** The edge `a`-`b` appended to both endpoints' lists. */
  function AddEdge(nbrs: seq<seq<nat>>, a: nat, b: nat): (res: seq<seq<nat>>)
    requires a < |nbrs| && b < |nbrs|
    ensures |res| == |nbrs|
  {
    var first := nbrs[a := nbrs[a] + [b]];
    first[b := first[b] + [a]]
  }

  /** The edges from `c` to each of `others`, added in order. */
  function AddAll(nbrs: seq<seq<nat>>, c: nat, others: seq<nat>): (res: seq<seq<nat>>)
    requires c < |nbrs| && InRange(|nbrs|, others)
    ensures |res| == |nbrs|
    decreases |others|
  {
    if others == [] then nbrs else AddAll(AddEdge(nbrs, c, others[0]), c, others[1..])
  }

  lemma {:induction false} AddAllSnoc(nbrs: seq<seq<nat>>, c: nat, others: seq<nat>, x: nat)
    requires c < |nbrs| && InRange(|nbrs|, others) && x < |nbrs|
    ensures AddAll(nbrs, c, others + [x]) == AddEdge(AddAll(nbrs, c, others), c, x)
    decreases |others|
  {
    if others != [] {
      AddAllSnoc(AddEdge(nbrs, c, others[0]), c, others[1..], x);
      assert (others + [x])[1..] == others[1..] + [x];
    }
  }

  /**
   * Adding the edges from `c` appends exactly `others` to `c`'s list, and to
   * every other vertex's list one `c` per occurrence of that vertex.
   */
  lemma {:induction false} AddAllLists(nbrs: seq<seq<nat>>, c: nat, others: seq<nat>, j: nat)
    requires c < |nbrs| && Candidates(|nbrs|, c, others) && j < |nbrs|
    ensures j == c ==> AddAll(nbrs, c, others)[j] == nbrs[j] + others
    ensures j != c ==> AddAll(nbrs, c, others)[j] == nbrs[j] + Copies(c, multiset(others)[j])
    decreases |others|
  {
    if others != [] {
      var next := AddEdge(nbrs, c, others[0]);
      AddAllLists(next, c, others[1..], j);
      assert others == [others[0]] + others[1..];
      if j != c {
        CopiesSucc(c, multiset(others[1..])[j]);
      }
    }
  }

  /** `count` copies of `x`. */
  function Copies(x: nat, count: nat): (s: seq<nat>)
    ensures |s| == count && forall i :: 0 <= i < count ==> s[i] == x
  {
    if count == 0 then [] else [x] + Copies(x, count - 1)
  }

  lemma CopiesSucc(x: nat, count: nat)
    ensures [x] + Copies(x, count) == Copies(x, count + 1)
  {
  }

  /** `n` empty neighbour lists. */
  function EmptyLists(n: nat): seq<seq<nat>>
  {
    seq(n, _ => [])
  }

  /**
   * The neighbour lists after vertices `0 .. n-1` have run `updateNeighbors`
   * in order, vertex `i` draining the queue `rankings[i]`.
   */
  ghost function Connected(coords: seq<Point>, rankings: seq<seq<nat>>, n: nat, k: int, r: real, m: Map): (res: seq<seq<nat>>)
    requires n <= |coords| && AllCandidates(|coords|, rankings, n)
    ensures |res| == |coords|
  {
    if n == 0 then EmptyLists(|coords|)
    else
      var prev := Connected(coords, rankings, n - 1, k, r, m);
      var c := n - 1;
      assert Candidates(|coords|, c, rankings[c]);
      AddAll(prev, c, Accepted(|prev[c]|, coords, c, rankings[c], k, r, m))
  }

  /** The edge construction reads only the queues of the vertices already processed. */
  lemma {:induction false} ConnectedPrefix(coords: seq<Point>, rs: seq<seq<nat>>, rs': seq<seq<nat>>, n: nat, k: int, r: real, m: Map)
    requires n <= |coords| && n <= |rs| && n <= |rs'| && rs[..n] == rs'[..n]
    requires AllCandidates(|coords|, rs, n)
    ensures AllCandidates(|coords|, rs', n)
    ensures Connected(coords, rs, n, k, r, m) == Connected(coords, rs', n, k, r, m)
  {
    assert forall i :: 0 <= i < n ==> rs[i] == rs[..n][i] == rs'[..n][i] == rs'[i];
    if n > 0 {
      assert rs[..n - 1] == rs[..n][..n - 1] && rs'[..n - 1] == rs'[..n][..n - 1];
      ConnectedPrefix(coords, rs, rs', n - 1, k, r, m);
    }
  }

  /**
   * `e` may stand in `i`'s list: another vertex within distance `r` whose
   * edge to `i` passed the collision check from one of its two ends.
   */
  ghost predicate EntryOk(coords: seq<Point>, r: real, m: Map, i: nat, e: nat)
    requires i < |coords|
  {
    e < |coords| && e != i && !FartherThan(coords[i], coords[e], r)
    && (EdgeValid(coords[i], coords[e], m) || EdgeValid(coords[e], coords[i], m))
  }

  /** One list per vertex, and every listed neighbour may stand there. */
  ghost predicate EntriesOk(coords: seq<Point>, nbrs: seq<seq<nat>>, r: real, m: Map)
  {
    |nbrs| == |coords| && forall i, e :: 0 <= i < |nbrs| && e in nbrs[i] ==> EntryOk(coords, r, m, i, e)
  }

  /** Edges are undirected: `j` occurs in `i`'s list as often as `i` in `j`'s. */
  predicate Symmetric(nbrs: seq<seq<nat>>)
  {
    forall i, j :: 0 <= i < |nbrs| && 0 <= j < |nbrs| ==> multiset(nbrs[i])[j] == multiset(nbrs[j])[i]
  }

  /**
   * The roadmap invariant: no vertex lies in an obstacle, every listed
   * neighbour may stand in its list, and the lists are symmetric.
   */
  ghost predicate RoadmapInv(coords: seq<Point>, nbrs: seq<seq<nat>>, r: real, m: Map)
  {
    (forall i :: 0 <= i < |coords| ==> !InObstacle(m, coords[i]))
    && EntriesOk(coords, nbrs, r, m) && Symmetric(nbrs)
  }

  lemma AddEdgeEntries(coords: seq<Point>, nbrs: seq<seq<nat>>, r: real, m: Map, a: nat, b: nat)
    requires EntriesOk(coords, nbrs, r, m)
    requires a < |coords| && b < |coords| && a != b
    requires !FartherThan(coords[a], coords[b], r) && EdgeValid(coords[a], coords[b], m)
    ensures EntriesOk(coords, AddEdge(nbrs, a, b), r, m)
  {
    var res := AddEdge(nbrs, a, b);
    Dist2Symmetric(coords[a], coords[b]);
    assert EntryOk(coords, r, m, a, b) && EntryOk(coords, r, m, b, a);
    forall i, e | 0 <= i < |res| && e in res[i]
      ensures EntryOk(coords, r, m, i, e)
    {
      if i == a {
        assert res[i] == nbrs[i] + [b];
      } else if i == b {
        assert res[i] == nbrs[i] + [a];
      } else {
        assert res[i] == nbrs[i];
      }
    }
  }

  lemma AddEdgeSymmetric(nbrs: seq<seq<nat>>, a: nat, b: nat)
    requires Symmetric(nbrs) && a < |nbrs| && b < |nbrs| && a != b
    ensures Symmetric(AddEdge(nbrs, a, b))
  {
    var res := AddEdge(nbrs, a, b);
    assert res[a] == nbrs[a] + [b] && res[b] == nbrs[b] + [a];
    forall i, j | 0 <= i < |res| && 0 <= j < |res|
      ensures multiset(res[i])[j] == multiset(res[j])[i]
    {
      if i != a && i != b {
        assert res[i] == nbrs[i];
      }
      if j != a && j != b {
        assert res[j] == nbrs[j];
      }
    }
  }

  /** Adding one edge that passed the distance and collision tests keeps the invariant. */
  lemma AddEdgeKeepsInv(coords: seq<Point>, nbrs: seq<seq<nat>>, r: real, m: Map, a: nat, b: nat)
    requires RoadmapInv(coords, nbrs, r, m)
    requires a < |coords| && b < |coords| && a != b
    requires !FartherThan(coords[a], coords[b], r) && EdgeValid(coords[a], coords[b], m)
    ensures RoadmapInv(coords, AddEdge(nbrs, a, b), r, m)
  {
    AddEdgeEntries(coords, nbrs, r, m, a, b);
    AddEdgeSymmetric(nbrs, a, b);
  }

  /** Accepted candidates come from the queue, lie within `r` and passed the collision check. */
  lemma {:induction false} AcceptedFacts(size: nat, coords: seq<Point>, c: nat, q: seq<nat>, k: int, r: real, m: Map)
    requires c < |coords| && Candidates(|coords|, c, q)
    ensures Candidates(|coords|, c, Accepted(size, coords, c, q, k, r, m))
    ensures forall e :: e in Accepted(size, coords, c, q, k, r, m) ==>
              e in q && !FartherThan(coords[c], coords[e], r) && EdgeValid(coords[c], coords[e], m)
    ensures size + |Accepted(size, coords, c, q, k, r, m)| <= if size >= k then size else k
    decreases |q|
  {
    if size < k && q != [] {
      AcceptedFacts(size + 1, coords, c, q[1..], k, r, m);
      AcceptedFacts(size, coords, c, q[1..], k, r, m);
    }
  }

  lemma {:induction false} AddAllKeepsInv(coords: seq<Point>, nbrs: seq<seq<nat>>, r: real, m: Map, c: nat, others: seq<nat>)
    requires RoadmapInv(coords, nbrs, r, m) && c < |coords| && Candidates(|coords|, c, others)
    requires forall e :: e in others ==> !FartherThan(coords[c], coords[e], r) && EdgeValid(coords[c], coords[e], m)
    ensures RoadmapInv(coords, AddAll(nbrs, c, others), r, m)
    decreases |others|
  {
    if others != [] {
      AddEdgeKeepsInv(coords, nbrs, r, m, c, others[0]);
      AddAllKeepsInv(coords, AddEdge(nbrs, c, others[0]), r, m, c, others[1..]);
    }
  }

  /** One vertex's scan keeps the roadmap invariant. */
  lemma ConnectedInvStep(coords: seq<Point>, rankings: seq<seq<nat>>, c: nat, k: int, r: real, m: Map)
    requires c < |coords| && AllCandidates(|coords|, rankings, c + 1)
    requires RoadmapInv(coords, Connected(coords, rankings, c, k, r, m), r, m)
    ensures RoadmapInv(coords, Connected(coords, rankings, c + 1, k, r, m), r, m)
  {
    var prev := Connected(coords, rankings, c, k, r, m);
    assert Candidates(|coords|, c, rankings[c]);
    var acc := Accepted(|prev[c]|, coords, c, rankings[c], k, r, m);
    assert Connected(coords, rankings, c + 1, k, r, m) == AddAll(prev, c, acc);
    AcceptedFacts(|prev[c]|, coords, c, rankings[c], k, r, m);
    AddAllKeepsInv(coords, prev, r, m, c, acc);
  }

  /** Every stage of the edge construction satisfies the roadmap invariant. */
  lemma {:induction false} ConnectedInv(coords: seq<Point>, rankings: seq<seq<nat>>, n: nat, k: int, r: real, m: Map)
    requires n <= |coords| && AllCandidates(|coords|, rankings, n)
    requires forall i :: 0 <= i < |coords| ==> !InObstacle(m, coords[i])
    ensures RoadmapInv(coords, Connected(coords, rankings, n, k, r, m), r, m)
  {
    if n > 0 {
      ConnectedInv(coords, rankings, n - 1, k, r, m);
      ConnectedInvStep(coords, rankings, n - 1, k, r, m);
    }
  }

  /**
   * The accepted candidates keep the queue's order, so they come in
   * nondecreasing distance from `c`.
   */
  lemma {:induction false} AcceptedSorted(size: nat, coords: seq<Point>, c: nat, q: seq<nat>, k: int, r: real, m: Map)
    requires c < |coords| && InRange(|coords|, q) && SortedBy(Distances(coords, coords[c]), q)
    ensures InRange(|coords|, Accepted(size, coords, c, q, k, r, m))
    ensures SortedBy(Distances(coords, coords[c]), Accepted(size, coords, c, q, k, r, m))
    ensures forall i :: 0 <= i < |Accepted(size, coords, c, q, k, r, m)| ==>
              Distances(coords, coords[c])[q[0]] <= Distances(coords, coords[c])[Accepted(size, coords, c, q, k, r, m)[i]]
    decreases |q|
  {
    if size < k && q != [] {
      var d := Distances(coords, coords[c]);
      var rest := q[1..];
      assert SortedBy(d, rest);
      AcceptedSorted(size + 1, coords, c, rest, k, r, m);
      AcceptedSorted(size, coords, c, rest, k, r, m);
      if rest != [] {
        assert d[q[0]] <= d[rest[0]];
      }
    }
  }

  lemma FartherThanMonotone(from: Point, a: Point, b: Point, r: real)
    requires FartherThan(from, a, r) && Dist2(from, a) <= Dist2(from, b)
    ensures FartherThan(from, b, r)
  {
  }

  /**
   * A blocked candidate does not end the scan: when the list is still short
   * of `k` after the scan, every candidate within `r` whose edge is clear was
   * accepted.
   */
  lemma {:induction false} AcceptedComplete(size: nat, coords: seq<Point>, c: nat, q: seq<nat>, k: int, r: real, m: Map, e: nat)
    requires c < |coords| && InRange(|coords|, q) && SortedBy(Distances(coords, coords[c]), q)
    requires size + |Accepted(size, coords, c, q, k, r, m)| < k
    requires e in q && !FartherThan(coords[c], coords[e], r) && EdgeValid(coords[c], coords[e], m)
    ensures e in Accepted(size, coords, c, q, k, r, m)
    decreases |q|
  {
    var d := Distances(coords, coords[c]);
    if e != q[0] {
      var rest := q[1..];
      assert e in rest;
      assert SortedBy(d, rest);
      if FartherThan(coords[c], coords[q[0]], r) {
        assert false;
      } else if EdgeValid(coords[c], coords[q[0]], m) {
        AcceptedComplete(size + 1, coords, c, rest, k, r, m, e);
      } else {
        AcceptedComplete(size, coords, c, rest, k, r, m, e);
      }
    }
  }

  /**
   * What the scan accepts when the collision verdict on `q[i]` is `ok[i]`:
   * `Accepted` with the verdicts supplied instead of decided.
   */
  function ScanResult(size: nat, coords: seq<Point>, c: nat, q: seq<nat>, ok: seq<bool>, k: int, r: real): (a: seq<nat>)
    requires c < |coords| && InRange(|coords|, q) && |ok| == |q|
    ensures InRange(|coords|, a)
    decreases |q|
  {
    if size >= k || q == [] then []
    else if FartherThan(coords[c], coords[q[0]], r) then []
    else if ok[0] then [q[0]] + ScanResult(size + 1, coords, c, q[1..], ok[1..], k, r)
    else ScanResult(size, coords, c, q[1..], ok[1..], k, r)
  }

  /** The verdicts of the collision check on the edges from `c` to each of `q`. */
  ghost function Verdicts(coords: seq<Point>, c: nat, q: seq<nat>, m: Map): seq<bool>
    requires c < |coords| && InRange(|coords|, q)
  {
    seq(|q|, i requires 0 <= i < |q| => EdgeValid(coords[c], coords[q[i]], m))
  }

  /** Given the true verdicts, the scan accepts exactly `Accepted`. */
  lemma {:induction false} ScanResultIsAccepted(size: nat, coords: seq<Point>, c: nat, q: seq<nat>, ok: seq<bool>, k: int, r: real, m: Map)
    requires c < |coords| && InRange(|coords|, q) && |ok| == |q|
    requires forall i :: 0 <= i < |q| ==> ok[i] == EdgeValid(coords[c], coords[q[i]], m)
    ensures ScanResult(size, coords, c, q, ok, k, r) == Accepted(size, coords, c, q, k, r, m)
    decreases |q|
  {
    if size < k && q != [] {
      assert ok[0] == EdgeValid(coords[c], coords[q[0]], m);
      assert forall i :: 0 <= i < |q| - 1 ==> ok[1..][i] == ok[i + 1] && q[1..][i] == q[i + 1];
      ScanResultIsAccepted(size + 1, coords, c, q[1..], ok[1..], k, r, m);
      ScanResultIsAccepted(size, coords, c, q[1..], ok[1..], k, r, m);
    }
  }

  /**
   * The scan's bookkeeping over one candidate: `accepted` followed by what
   * the rest of the scan accepts is always the whole scan's result.
   */
  lemma AcceptAdvance(accepted: seq<nat>, size: nat, coords: seq<Point>, c: nat, q: seq<nat>, ok: seq<bool>, k: int, r: real, target: seq<nat>)
    requires c < |coords| && InRange(|coords|, q) && |ok| == |q| && size < k && q != []
    requires accepted + ScanResult(size, coords, c, q, ok, k, r) == target
    ensures FartherThan(coords[c], coords[q[0]], r) ==> accepted == target
    ensures !FartherThan(coords[c], coords[q[0]], r) && ok[0] ==>
              accepted + [q[0]] + ScanResult(size + 1, coords, c, q[1..], ok[1..], k, r) == target
    ensures !FartherThan(coords[c], coords[q[0]], r) && !ok[0] ==>
              accepted + ScanResult(size, coords, c, q[1..], ok[1..], k, r) == target
  {
    assert accepted + [] == accepted;
    var rest := ScanResult(size + 1, coords, c, q[1..], ok[1..], k, r);
    assert accepted + [q[0]] + rest == accepted + ([q[0]] + rest);
  }

  /** Each of the first `draws` draws was made while fewer than `NumVertices` points were kept. */
  predicate DrewWhileShort(m: Map, start: nat, draws: nat)
  {
    forall j :: 0 <= j < draws ==> start + |KeptSamples(m, j)| < NumVertices
  }

  lemma DrewWhileShortStep(m: Map, start: nat, draws: nat)
    requires DrewWhileShort(m, start, draws) && start + |KeptSamples(m, draws)| < NumVertices
    ensures DrewWhileShort(m, start, draws + 1)
  {
  }

  class Graph {
    var coordinates: seq<Point>
    var neighbors: seq<seq<nat>>

    /**
     * Builds the roadmap over `m`: each vertex gets up to `k` neighbours
     * within distance `r`. Sampling gives up after `maxDraws` Halton draws.
     */
    constructor (m: Map, k: int, r: real, maxDraws: nat)
      ensures |coordinates| <= NumVertices && RoadmapInv(coordinates, neighbors, r, m)
      ensures exists draws: nat, rankings: seq<seq<nat>> ::
                draws <= maxDraws && coordinates == KeptSamples(m, draws)
                && (|coordinates| == NumVertices || draws == maxDraws)
                && |rankings| == |coordinates| && AllRanked(coordinates, rankings, |coordinates|)
                && AllCandidates(|coordinates|, rankings, |coordinates|)
                && neighbors == Connected(coordinates, rankings, |coordinates|, k, r, m)
    {
      coordinates := [];
      neighbors := [];
      new;
      ghost var draws, rankings := BuildGraph(m, k, r, maxDraws);
    }

    /**
     * Samples the vertices, creates one empty list per vertex, then lets
     * every vertex in turn take its neighbours.
     */
    method BuildGraph(m: Map, k: int, r: real, maxDraws: nat) returns (ghost draws: nat, ghost rankings: seq<seq<nat>>)
      requires coordinates == [] && neighbors == []
      modifies this
      ensures draws <= maxDraws && coordinates == KeptSamples(m, draws)
      ensures |coordinates| <= NumVertices && (|coordinates| == NumVertices || draws == maxDraws)
      ensures |rankings| == |coordinates|
      ensures AllRanked(coordinates, rankings, |coordinates|) && AllCandidates(|coordinates|, rankings, |coordinates|)
      ensures neighbors == Connected(coordinates, rankings, |coordinates|, k, r, m)
      ensures RoadmapInv(coordinates, neighbors, r, m)
    {
      draws := GenerateVertices(m, maxDraws);
      KeptSamplesAreFree(m, draws);
      AddEmptyLists();
      rankings := ConnectAll(k, r, m);
      ConnectedInv(coordinates, rankings, |coordinates|, k, r, m);
    }

    /** One empty neighbour list per vertex. */
    method AddEmptyLists()
      requires neighbors == []
      modifies this
      ensures coordinates == old(coordinates) && neighbors == EmptyLists(|coordinates|)
    {
      var i := 0;
      while i < |coordinates|
        invariant coordinates == old(coordinates)
        invariant i <= |coordinates| && |neighbors| == i
        invariant forall j :: 0 <= j < i ==> neighbors[j] == []
      {
        neighbors := neighbors + [[]];
        i := i + 1;
      }
      assert neighbors == EmptyLists(|coordinates|);
    }

    /** The edge loop: every vertex in turn takes its neighbours. */
    method ConnectAll(k: int, r: real, m: Map) returns (ghost rankings: seq<seq<nat>>)
      requires neighbors == EmptyLists(|coordinates|)
      modifies this
      ensures coordinates == old(coordinates) && |rankings| == |coordinates|
      ensures AllRanked(coordinates, rankings, |coordinates|) && AllCandidates(|coordinates|, rankings, |coordinates|)
      ensures neighbors == Connected(coordinates, rankings, |coordinates|, k, r, m)
    {
      rankings := [];
      var i := 0;
      while i < |coordinates|
        invariant coordinates == old(coordinates)
        invariant i <= |coordinates| && |rankings| == i
        invariant AllRanked(coordinates, rankings, i) && AllCandidates(|coordinates|, rankings, i)
        invariant neighbors == Connected(coordinates, rankings, i, k, r, m)
      {
        rankings := ConnectNext(i, k, r, m, rankings);
        i := i + 1;
      }
    }

    /** One pass of the edge loop: vertex `curr` scans its queue `q`. */
    method ConnectNext(curr: nat, k: int, r: real, m: Map, ghost rankings: seq<seq<nat>>) returns (ghost rankings': seq<seq<nat>>)
      requires curr == |rankings| < |coordinates|
      requires AllRanked(coordinates, rankings, curr) && AllCandidates(|coordinates|, rankings, curr)
      requires neighbors == Connected(coordinates, rankings, curr, k, r, m)
      modifies this
      ensures coordinates == old(coordinates) && |rankings'| == curr + 1
      ensures AllRanked(coordinates, rankings', curr + 1) && AllCandidates(|coordinates|, rankings', curr + 1)
      ensures neighbors == Connected(coordinates, rankings', curr + 1, k, r, m)
    {
      ghost var q := UpdateNeighbors(curr, k, r, m);
      QueuesSnoc(coordinates, rankings, q);
      ConnectedPrefix(coordinates, rankings, rankings + [q], curr, k, r, m);
      rankings' := rankings + [q];
    }

    /**
     * Draws Halton points, scaled to the map, and keeps those outside the
     * obstacles until `NumVertices` are kept. The source draws without
     * bound; this model stops after `maxDraws` draws.
     */
    method GenerateVertices(m: Map, maxDraws: nat) returns (ghost draws: nat)
      requires |coordinates| <= NumVertices
      modifies this
      ensures neighbors == old(neighbors)
      ensures draws <= maxDraws && coordinates == old(coordinates) + KeptSamples(m, draws)
      ensures |coordinates| <= NumVertices && (|coordinates| == NumVertices || draws == maxDraws)
      ensures DrewWhileShort(m, |old(coordinates)|, draws)
    {
      ghost var start := |coordinates|;
      var hs := new HaltonSequence(P, Q);
      var drawn := 0;
      while |coordinates| < NumVertices && drawn < maxDraws
        invariant hs.Valid() && hs.xGen.base == P && hs.yGen.base == Q && hs.Index() == drawn
        invariant neighbors == old(neighbors)
        invariant drawn <= maxDraws && coordinates == old(coordinates) + KeptSamples(m, drawn)
        invariant |coordinates| <= NumVertices
        invariant DrewWhileShort(m, start, drawn)
        decreases maxDraws - drawn
      {
        DrawVertex(m, hs, old(coordinates), start, drawn);
        drawn := drawn + 1;
      }
      draws := drawn;
    }

    /**
     * One pass of the sampling loop: draws the next Halton point, scales it
     * to the map and keeps it when it is outside every obstacle.
     */
    method DrawVertex(m: Map, hs: HaltonSequence, ghost prefix: seq<Point>, ghost start: nat, drawn: nat)
      requires hs.Valid() && hs.xGen.base == P && hs.yGen.base == Q && hs.Index() == drawn
      requires coordinates == prefix + KeptSamples(m, drawn) && |coordinates| < NumVertices
      requires start == |prefix| && DrewWhileShort(m, start, drawn)
      modifies this, hs.xGen, hs.yGen
      ensures hs.Valid() && hs.xGen.base == P && hs.yGen.base == Q && hs.Index() == drawn + 1
      ensures neighbors == old(neighbors) && coordinates == prefix + KeptSamples(m, drawn + 1)
      ensures |coordinates| <= NumVertices && DrewWhileShort(m, start, drawn + 1)
    {
      DrewWhileShortStep(m, start, drawn);
      var hsVal := hs.Next();
      var point := ToMap(m, hsVal.0, hsVal.1);
      KeptSamplesStep(m, drawn, hsVal.0, hsVal.1, point);
      if !InObstacle(m, point) {
        coordinates := coordinates + [point];
      }
    }

    /**
     * Lets vertex `curr` take neighbours from its queue of the other
     * vertices, nearest first; `q` is the queue it drained.
     */
    method UpdateNeighbors(curr: nat, k: int, r: real, m: Map) returns (ghost q: seq<nat>)
      requires curr < |coordinates| && |neighbors| == |coordinates|
      modifies this
      ensures coordinates == old(coordinates)
      ensures IsRanking(Distances(coordinates, coordinates[curr]), curr, q)
      ensures Candidates(|coordinates|, curr, q)
      ensures neighbors == AddAll(old(neighbors), curr, Accepted(|old(neighbors[curr])|, coordinates, curr, q, k, r, m))
    {
      if |neighbors[curr]| == k {
        // The early return scans nothing: no queue accepts a candidate once the list is full.
        q := RankingExists(Distances(coordinates, coordinates[curr]), curr);
        RankingCandidates(Distances(coordinates, coordinates[curr]), curr, q);
        return;
      }
      var sorted := RankOthers(coordinates, curr);
      RankingCandidates(Distances(coordinates, coordinates[curr]), curr, sorted);
      q := sorted;
      ghost var ok := Verdicts(coordinates, curr, sorted, m);
      ScanResultIsAccepted(|neighbors[curr]|, coordinates, curr, sorted, ok, k, r, m);
      ScanQueue(curr, sorted, ok, k, r, m);
    }

    /**
     * The loop of `updateNeighbors`: takes candidates from `sorted` while the
     * list of `curr` is short of `k`; `ok` holds the collision verdicts.
     */
    method ScanQueue(curr: nat, sorted: seq<nat>, ghost ok: seq<bool>, k: int, r: real, m: Map)
      requires curr < |coordinates| && |neighbors| == |coordinates|
      requires Candidates(|coordinates|, curr, sorted) && |ok| == |sorted|
      requires forall i {:trigger EdgeValid(coordinates[curr], coordinates[sorted[i]], m)} ::
                 0 <= i < |sorted| ==> ok[i] == EdgeValid(coordinates[curr], coordinates[sorted[i]], m)
      modifies this
      ensures coordinates == old(coordinates)
      ensures neighbors == AddAll(old(neighbors), curr, ScanResult(|old(neighbors[curr])|, coordinates, curr, sorted, ok, k, r))
    {
      ghost var coords := coordinates;
      ghost var n := |coords|;
      var currCoords := coordinates[curr];
      var queue := sorted;
      ghost var j := 0;
      ghost var accepted: seq<nat> := [];
      ghost var target := ScanResult(|neighbors[curr]|, coords, curr, sorted, ok, k, r);
      assert accepted + target == target;
      while |neighbors[curr]| < k && queue != []
        invariant coordinates == coords && |neighbors| == n
        invariant j <= |sorted| && queue == sorted[j..]
        invariant Candidates(n, curr, queue) && InRange(n, accepted)
        invariant neighbors == AddAll(old(neighbors), curr, accepted)
        invariant |neighbors[curr]| == |old(neighbors[curr])| + |accepted|
        invariant accepted + ScanResult(|neighbors[curr]|, coords, curr, queue, ok[j..], k, r) == target
        decreases |queue|
      {
        AcceptAdvance(accepted, |neighbors[curr]|, coords, curr, queue, ok[j..], k, r, target);
        var other := queue[0];
        assert other == sorted[j] && ok[j..][0] == ok[j] && ok[j..][1..] == ok[j + 1..];
        queue := queue[1..];
        j := j + 1;
        if FartherThan(currCoords, coordinates[other], r) {
          break;
        }
        var valid := EdgeIsValid(currCoords, coordinates[other], m);
        assert valid == ok[j - 1];
        if valid {
          AddAllSnoc(old(neighbors), curr, accepted, other);
          Connect(curr, other);
          accepted := accepted + [other];
        }
      }
      if |neighbors[curr]| >= k || queue == [] {
        assert ScanResult(|neighbors[curr]|, coords, curr, queue, ok[j..], k, r) == [];
        assert accepted + [] == accepted;
      }
    }

    /** Appends `b` to `a`'s list and `a` to `b`'s list. */
    method Connect(a: nat, b: nat)
      requires a < |neighbors| && b < |neighbors| && a != b
      modifies this
      ensures coordinates == old(coordinates)
      ensures neighbors == AddEdge(old(neighbors), a, b)
      ensures |neighbors[a]| == |old(neighbors[a])| + 1
    {
      neighbors := neighbors[a := neighbors[a] + [b]];
      neighbors := neighbors[b := neighbors[b] + [a]];
    }
  }
}
