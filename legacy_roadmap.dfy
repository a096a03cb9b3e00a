/**
 * The older roadmap builder (`out/source/Graph.java`).
 *
 * Vertices are the Halton points of exactly 150 draws that miss every
 * obstacle. Each vertex then takes its `k` closest other vertices, drops
 * those farther than `r` or whose edge, checked from the other vertex
 * towards it, is blocked, and appends the rest to its own list only.
 * `kClosest` throws when there are fewer than `k + 1` vertices.
 */
module LegacyRoadmapBuilder {
  import opened Wrappers
  import opened Geometry
  import opened Halton
  import opened ObstacleMap
  import opened Sampling
  import opened Collision
  import opened Ranking

  /** How many candidates the source's `for (i = 0; i < k; i++)` loop takes. */
  function Fanout(k: int): nat
  {
    if k < 0 then 0 else k
  }

  /** Whether `kClosest` throws for `n` points and fan-out `k`. */
  predicate ClosestFails(n: nat, k: int)
  {
    n == 0 || k > n - 1
  }

  /** No index occurs twice in `q`. */
  predicate Distinct(q: seq<nat>)
  {
    forall i, j :: 0 <= i < j < |q| ==> q[i] != q[j]
  }

  /**
   * The first `k` entries of a ranking of vertex `c` are `k` distinct other
   * vertices in nondecreasing distance, and every other vertex left out is
   * at least as far as each of them: they are the `k` closest.
   */
  lemma ClosestPrefix(d: seq<real>, c: nat, q: seq<nat>, k: nat)
    requires IsRanking(d, c, q) && k <= |q|
    ensures |q[..k]| == k && Candidates(|d|, c, q[..k]) && Distinct(q[..k])
    ensures SortedBy(d, q[..k])
    ensures forall j, i :: 0 <= j < |d| && j != c && j !in q[..k] && 0 <= i < k ==> d[q[i]] <= d[j]
  {
    RankingFacts(d, c, q);
    var p := q[..k];
    assert forall i :: 0 <= i < k ==> p[i] == q[i];
    assert forall t :: 0 <= t < k ==> q[t] in p;
    forall j, i | 0 <= j < |d| && j != c && j !in p && 0 <= i < k
      ensures d[q[i]] <= d[j]
    {
      assert multiset(q)[j] == 1;
      assert j in q;
      var t :| 0 <= t < |q| && q[t] == j;
      assert d[q[i]] <= d[q[t]];
    }
  }

  /** The removeIf condition: `otherPoint` is farther than `r`, or the edge from it to `curr` is blocked. */
  ghost predicate Dropped(coords: seq<Point>, c: nat, e: nat, r: real, m: Map)
    requires c < |coords| && e < |coords|
  {
    FartherThan(coords[c], coords[e], r) || !EdgeValid(coords[e], coords[c], m)
  }

  /** The candidates of `q` that `removeIf` leaves, in their order. */
  ghost function Kept(coords: seq<Point>, c: nat, q: seq<nat>, r: real, m: Map): (s: seq<nat>)
    requires c < |coords| && InRange(|coords|, q)
    ensures |s| <= |q| && InRange(|coords|, s)
    decreases |q|
  {
    if q == [] then []
    else if Dropped(coords, c, q[0], r, m) then Kept(coords, c, q[1..], r, m)
    else [q[0]] + Kept(coords, c, q[1..], r, m)
  }

  /** `Kept` with the collision verdict on `q[i]` supplied as `ok[i]` instead of decided. */
  function Survivors(coords: seq<Point>, c: nat, q: seq<nat>, ok: seq<bool>, r: real): (s: seq<nat>)
    requires c < |coords| && InRange(|coords|, q) && |ok| == |q|
    decreases |q|
  {
    if q == [] then []
    else if FartherThan(coords[c], coords[q[0]], r) || !ok[0] then Survivors(coords, c, q[1..], ok[1..], r)
    else [q[0]] + Survivors(coords, c, q[1..], ok[1..], r)
  }

  /** Given the true verdicts, the supplied-verdict filter keeps exactly `Kept`. */
  lemma {:induction false} SurvivorsAreKept(coords: seq<Point>, c: nat, q: seq<nat>, ok: seq<bool>, r: real, m: Map)
    requires c < |coords| && InRange(|coords|, q) && |ok| == |q|
    requires forall i :: 0 <= i < |q| ==> ok[i] == EdgeValid(coords[q[i]], coords[c], m)
    ensures Survivors(coords, c, q, ok, r) == Kept(coords, c, q, r, m)
    decreases |q|
  {
    if q != [] {
      assert ok[0] == EdgeValid(coords[q[0]], coords[c], m);
      assert forall i :: 0 <= i < |q| - 1 ==> ok[1..][i] == ok[i + 1] && q[1..][i] == q[i + 1];
      SurvivorsAreKept(coords, c, q[1..], ok[1..], r, m);
    }
  }

  /** The collision verdicts on the edges from each of `q` to `c`, in the source's orientation. */
  ghost function ReverseVerdicts(coords: seq<Point>, c: nat, q: seq<nat>, m: Map): seq<bool>
    requires c < |coords| && InRange(|coords|, q)
  {
    seq(|q|, i requires 0 <= i < |q| => EdgeValid(coords[q[i]], coords[c], m))
  }

  /**
   * Every candidate `removeIf` leaves came from `q`, lies within `r` and
   * passed the collision check from its own end.
   */
  lemma {:induction false} KeptFacts(coords: seq<Point>, c: nat, q: seq<nat>, r: real, m: Map)
    requires c < |coords| && InRange(|coords|, q)
    ensures forall e :: e in Kept(coords, c, q, r, m) ==>
              e in q && !FartherThan(coords[c], coords[e], r) && EdgeValid(coords[e], coords[c], m)
    decreases |q|
  {
    if q != [] {
      KeptFacts(coords, c, q[1..], r, m);
    }
  }

  /** The survivors keep the order of `q`, so they are distinct when `q` is. */
  lemma {:induction false} KeptDistinct(coords: seq<Point>, c: nat, q: seq<nat>, r: real, m: Map)
    requires c < |coords| && InRange(|coords|, q) && Distinct(q)
    ensures Distinct(Kept(coords, c, q, r, m))
    decreases |q|
  {
    if q != [] {
      var rest := q[1..];
      KeptDistinct(coords, c, rest, r, m);
      KeptFacts(coords, c, rest, r, m);
      assert q[0] !in rest;
    }
  }

  /** The survivors keep the order of `q`, so they are sorted by distance when `q` is. */
  lemma {:induction false} KeptSorted(coords: seq<Point>, c: nat, q: seq<nat>, r: real, m: Map)
    requires c < |coords| && InRange(|coords|, q) && SortedBy(Distances(coords, coords[c]), q)
    ensures SortedBy(Distances(coords, coords[c]), Kept(coords, c, q, r, m))
    decreases |q|
  {
    if q != [] {
      var rest := q[1..];
      var d := Distances(coords, coords[c]);
      assert SortedBy(d, rest);
      KeptSorted(coords, c, rest, r, m);
      KeptFacts(coords, c, rest, r, m);
      assert forall e :: e in rest ==> d[q[0]] <= d[e];
    }
  }

  /** A removeIf filter keeps every near candidate whose edge is clear. */
  lemma {:induction false} KeptComplete(coords: seq<Point>, c: nat, q: seq<nat>, r: real, m: Map, e: nat)
    requires c < |coords| && InRange(|coords|, q) && e in q
    requires !FartherThan(coords[c], coords[e], r) && EdgeValid(coords[e], coords[c], m)
    ensures e in Kept(coords, c, q, r, m)
    decreases |q|
  {
    if q[0] != e {
      KeptComplete(coords, c, q[1..], r, m, e);
    }
  }

  /**
   * The neighbour lists once vertices `0 .. n-1` have filtered the first
   * `k` entries of their queues into their own lists.
   */
  ghost function Lists(coords: seq<Point>, rankings: seq<seq<nat>>, n: nat, k: nat, r: real, m: Map): (res: seq<seq<nat>>)
    requires n <= |coords| && AllCandidates(|coords|, rankings, n)
    requires forall i :: 0 <= i < n ==> k <= |rankings[i]|
    ensures |res| == |coords|
    ensures forall j :: n <= j < |coords| ==> res[j] == []
  {
    if n == 0 then seq(|coords|, _ => [])
    else
      var c := n - 1;
      assert Candidates(|coords|, c, rankings[c]);
      Lists(coords, rankings, c, k, r, m)[c := Kept(coords, c, rankings[c][..k], r, m)]
  }

  /**
   * What the older builder promises of a vertex's list: at most `k` distinct
   * other vertices, nearest first, each within `r`, each with an edge towards `i` that
   * passed the collision check, and each among `i`'s `k` closest: no vertex
   * left out of the list's queue prefix is nearer than a listed one; and
   * every one of those `k` closest that is within `r` and whose edge passed
   * is listed.
   */
  ghost predicate ListOk(coords: seq<Point>, ranking: seq<nat>, k: nat, r: real, m: Map, i: nat, list: seq<nat>)
    requires i < |coords|
  {
    |list| <= k && Distinct(list) && InRange(|coords|, list) && SortedBy(Distances(coords, coords[i]), list)
    && (forall e :: e in list ==>
          e < |coords| && e != i && e in ranking[..Min(k, |ranking|)]
          && !FartherThan(coords[i], coords[e], r) && EdgeValid(coords[e], coords[i], m))
    && (forall e, j :: e in list && 0 <= j < |coords| && j != i && j !in ranking[..Min(k, |ranking|)] ==>
          Dist2(coords[i], coords[e]) <= Dist2(coords[i], coords[j]))
    && (forall e :: (e in ranking[..Min(k, |ranking|)] && e < |coords| && !FartherThan(coords[i], coords[e], r)
                     && EdgeValid(coords[e], coords[i], m)) ==> e in list)
  }

  function Min(a: nat, b: nat): nat
  {
    if a < b then a else b
  }

  /** One vertex's filtered queue prefix satisfies `ListOk`. */
  lemma ListOkOne(coords: seq<Point>, ranking: seq<nat>, k: nat, r: real, m: Map, i: nat)
    requires i < |coords| && IsRanking(Distances(coords, coords[i]), i, ranking) && k <= |ranking|
    ensures InRange(|coords|, ranking[..k])
    ensures ListOk(coords, ranking, k, r, m, i, Kept(coords, i, ranking[..k], r, m))
  {
    var d := Distances(coords, coords[i]);
    var p := ranking[..k];
    ClosestPrefix(d, i, ranking, k);
    KeptFacts(coords, i, p, r, m);
    KeptDistinct(coords, i, p, r, m);
    KeptSorted(coords, i, p, r, m);
    var list := Kept(coords, i, p, r, m);
    assert Min(k, |ranking|) == k;
    forall e, j | e in list && 0 <= j < |coords| && j != i && j !in p
      ensures Dist2(coords[i], coords[e]) <= Dist2(coords[i], coords[j])
    {
      var t :| 0 <= t < k && p[t] == e;
      assert d[ranking[t]] <= d[j];
    }
    forall e | e in p && e < |coords| && !FartherThan(coords[i], coords[e], r) && EdgeValid(coords[e], coords[i], m)
      ensures e in list
    {
      KeptComplete(coords, i, p, r, m, e);
    }
  }

  /** Every list the older builder produces satisfies `ListOk`. */
  lemma ListsOk(coords: seq<Point>, rankings: seq<seq<nat>>, n: nat, k: nat, r: real, m: Map)
    requires n <= |coords| && AllRanked(coords, rankings, n) && AllCandidates(|coords|, rankings, n)
    requires forall i :: 0 <= i < n ==> k <= |rankings[i]|
    ensures forall i :: 0 <= i < n ==> ListOk(coords, rankings[i], k, r, m, i, Lists(coords, rankings, n, k, r, m)[i])
  {
    forall i | 0 <= i < n
      ensures ListOk(coords, rankings[i], k, r, m, i, Lists(coords, rankings, n, k, r, m)[i])
    {
      ListsAt(coords, rankings, n, k, r, m, i);
      ListOkOne(coords, rankings[i], k, r, m, i);
    }
  }

  /** The list of vertex `i < n` is its own filtered queue prefix. */
  lemma {:induction false} ListsAt(coords: seq<Point>, rankings: seq<seq<nat>>, n: nat, k: nat, r: real, m: Map, i: nat)
    requires n <= |coords| && AllCandidates(|coords|, rankings, n)
    requires forall j :: 0 <= j < n ==> k <= |rankings[j]|
    requires i < n
    ensures Candidates(|coords|, i, rankings[i]) && InRange(|coords|, rankings[i][..k])
    ensures Lists(coords, rankings, n, k, r, m)[i] == Kept(coords, i, rankings[i][..k], r, m)
  {
    assert Candidates(|coords|, i, rankings[i]);
    assert InRange(|coords|, rankings[i][..k]) by {
      forall t | 0 <= t < k
        ensures rankings[i][..k][t] < |coords|
      {
        assert rankings[i][..k][t] == rankings[i][t];
      }
    }
    if i < n - 1 {
      ListsAt(coords, rankings, n - 1, k, r, m, i);
    }
  }

  class Graph {
    var coordinates: seq<Point>
    var neighbors: seq<seq<nat>>

    /** The object before `buildGraph` has run: no vertices and no lists. */
    constructor ()
      ensures coordinates == [] && neighbors == []
    {
      coordinates := [];
      neighbors := [];
    }

    /**
     * Samples the vertices with exactly `NumVertices` draws, creates one
     * empty list per vertex, then lets every vertex take its filtered `k`
     * closest. Fails, before any edge is added, when `kClosest` throws.
     */
    method BuildGraph(m: Map, k: int, r: real) returns (outcome: Outcome, ghost rankings: seq<seq<nat>>)
      requires coordinates == [] && neighbors == []
      modifies this
      ensures coordinates == KeptSamples(m, NumVertices) && |coordinates| <= NumVertices
      ensures forall i :: 0 <= i < |coordinates| ==> !InObstacle(m, coordinates[i])
      ensures outcome.Fail? <==> |coordinates| > 0 && k > |coordinates| - 1
      ensures outcome.Fail? ==> outcome.error == IllegalArgument && neighbors == seq(|coordinates|, _ => [])
      ensures outcome.Pass? ==>
                |rankings| == |coordinates| && AllRanked(coordinates, rankings, |coordinates|)
                && AllCandidates(|coordinates|, rankings, |coordinates|)
                && (forall i :: 0 <= i < |coordinates| ==> Fanout(k) <= |rankings[i]|)
                && neighbors == Lists(coordinates, rankings, |coordinates|, Fanout(k), r, m)
    {
      GenerateVertices(m);
      KeptSamplesAreFree(m, NumVertices);
      AddEmptyLists();
      rankings := [];
      var i := 0;
      while i < |coordinates|
        invariant i <= |coordinates| && |rankings| == i
        invariant coordinates == KeptSamples(m, NumVertices)
        invariant i > 0 ==> !ClosestFails(|coordinates|, k)
        invariant AllRanked(coordinates, rankings, i) && AllCandidates(|coordinates|, rankings, i)
        invariant forall j :: 0 <= j < i ==> Fanout(k) <= |rankings[j]|
        invariant neighbors == Lists(coordinates, rankings, i, Fanout(k), r, m)
      {
        var step;
        step, rankings := NextVertex(i, k, r, m, rankings);
        if step.Fail? {
          return step, rankings;
        }
        i := i + 1;
      }
      outcome := Pass;
    }

    /**
     * The edge loop's pass for vertex `curr`, the next after those whose
     * queues `rankings` holds, which keeps the loop's
     * invariant: the lists are those of `Lists` and the queues rankings.
     */
    method NextVertex(curr: nat, k: int, r: real, m: Map, ghost rankings: seq<seq<nat>>) returns (outcome: Outcome, ghost rankings': seq<seq<nat>>)
      requires curr == |rankings| < |coordinates|
      requires AllRanked(coordinates, rankings, |rankings|) && AllCandidates(|coordinates|, rankings, |rankings|)
      requires forall j :: 0 <= j < |rankings| ==> Fanout(k) <= |rankings[j]|
      requires neighbors == Lists(coordinates, rankings, |rankings|, Fanout(k), r, m)
      modifies this
      ensures coordinates == old(coordinates)
      ensures outcome.Fail? <==> ClosestFails(|coordinates|, k)
      ensures outcome.Fail? ==> outcome.error == IllegalArgument && neighbors == old(neighbors) && rankings' == rankings
      ensures outcome.Pass? ==>
                |rankings'| == |rankings| + 1 && AllRanked(coordinates, rankings', |rankings'|)
                && AllCandidates(|coordinates|, rankings', |rankings'|)
                && (forall j :: 0 <= j < |rankings'| ==> Fanout(k) <= |rankings'[j]|)
                && neighbors == Lists(coordinates, rankings', |rankings'|, Fanout(k), r, m)
    {
      ghost var prev := neighbors;
      ghost var sorted;
      outcome, sorted := TakeNeighbors(curr, k, r, m);
      if outcome.Fail? {
        return outcome, rankings;
      }
      PassStep(coordinates, rankings, sorted, Fanout(k), r, m, prev, neighbors);
      rankings' := rankings + [sorted];
    }

    /** One empty neighbour list per vertex. */
    method AddEmptyLists()
      requires neighbors == []
      modifies this
      ensures coordinates == old(coordinates) && neighbors == seq(|coordinates|, _ => [])
    {
      var i := 0;
      while i < |coordinates|
        invariant i <= |coordinates| && |neighbors| == i && coordinates == old(coordinates)
        invariant forall j :: 0 <= j < i ==> neighbors[j] == []
      {
        neighbors := neighbors + [[]];
        i := i + 1;
      }
    }

    /**
     * One pass of the edge loop: vertex `curr` filters its `k` closest into
     * its own list; `sorted` is the queue `kClosest` drew them from.
     */
    method TakeNeighbors(curr: nat, k: int, r: real, m: Map) returns (outcome: Outcome, ghost sorted: seq<nat>)
      requires curr < |coordinates| && |neighbors| == |coordinates|
      modifies this
      ensures coordinates == old(coordinates)
      ensures outcome.Fail? <==> ClosestFails(|coordinates|, k)
      ensures outcome.Fail? ==> outcome.error == IllegalArgument && neighbors == old(neighbors)
      ensures outcome.Pass? ==>
                IsRanking(Distances(coordinates, coordinates[curr]), curr, sorted)
                && Candidates(|coordinates|, curr, sorted) && Fanout(k) <= |sorted|
                && InRange(|coordinates|, sorted[..Fanout(k)])
                && neighbors == old(neighbors)[curr := old(neighbors[curr]) + Kept(coordinates, curr, sorted[..Fanout(k)], r, m)]
    {
      var closest;
      closest, sorted := KClosest(curr, k, coordinates);
      if closest.Err? {
        return Fail(closest.error), sorted;
      }
      RankingCandidates(Distances(coordinates, coordinates[curr]), curr, sorted);
      assert forall t :: 0 <= t < |closest.value| ==> closest.value[t] == sorted[t];
      ghost var ok := ReverseVerdicts(coordinates, curr, closest.value, m);
      var kept := RemoveBlocked(curr, closest.value, ok, r, m);
      SurvivorsAreKept(coordinates, curr, closest.value, ok, r, m);
      neighbors := neighbors[curr := neighbors[curr] + kept];
      outcome := Pass;
    }

    /** Exactly `NumVertices` Halton draws, scaled to the map; those outside the obstacles are kept. */
    method GenerateVertices(m: Map)
      requires coordinates == []
      modifies this
      ensures neighbors == old(neighbors) && coordinates == KeptSamples(m, NumVertices)
    {
      var hs := new HaltonSequence(P, Q);
      var i := 0;
      while i < NumVertices
        invariant hs.Valid() && hs.xGen.base == P && hs.yGen.base == Q && hs.Index() == i
        invariant neighbors == old(neighbors)
        invariant i <= NumVertices && coordinates == KeptSamples(m, i)
      {
        DrawSample(m, hs, i);
        i := i + 1;
      }
    }

    /** One pass of the draw loop: draw a point and keep it when it is free. */
    method DrawSample(m: Map, hs: HaltonSequence, drawn: nat)
      requires hs.Valid() && hs.xGen.base == P && hs.yGen.base == Q && hs.Index() == drawn
      requires coordinates == KeptSamples(m, drawn)
      modifies this, hs.xGen, hs.yGen
      ensures hs.Valid() && hs.xGen.base == P && hs.yGen.base == Q && hs.Index() == drawn + 1
      ensures neighbors == old(neighbors) && coordinates == KeptSamples(m, drawn + 1)
    {
      var hsVal := hs.Next();
      var point := ToMap(m, hsVal.0, hsVal.1);
      KeptSamplesStep(m, drawn, hsVal.0, hsVal.1, point);
      if !InObstacle(m, point) {
        coordinates := coordinates + [point];
      }
    }

    /**
     * The source's `kClosest`: the first `k` indices of the queue of the
     * other points ordered by distance from `points[pointIndex]`; throws
     * when `points` is empty or `k > |points| - 1`. `sorted` is the queue.
     */
    method KClosest(pointIndex: nat, k: int, points: seq<Point>) returns (res: Result<seq<nat>>, ghost sorted: seq<nat>)
      requires |points| == 0 || pointIndex < |points|
      ensures res.Err? <==> ClosestFails(|points|, k)
      ensures res.Err? ==> res.error == IllegalArgument
      ensures res.Ok? ==>
                IsRanking(Distances(points, points[pointIndex]), pointIndex, sorted)
                && Fanout(k) <= |sorted| && res.value == sorted[..Fanout(k)]
    {
      if |points| == 0 || k > |points| - 1 {
        return Err(IllegalArgument), [];
      }
      var queue := RankOthers(points, pointIndex);
      sorted := queue;
      RankingFacts(Distances(points, points[pointIndex]), pointIndex, sorted);
      var result: seq<nat> := [];
      var i := 0;
      while i < k
        invariant 0 <= i <= Fanout(k) && result == sorted[..i] && queue == sorted[i..]
      {
        result := result + [queue[0]];
        queue := queue[1..];
        i := i + 1;
      }
      return Ok(result), sorted;
    }

    /**
     * The source's `removeIf`: drops from `closest` every candidate farther
     * than `r` from vertex `curr` or whose edge towards `curr` is blocked;
     * `ok` holds the collision verdicts.
     */
    method RemoveBlocked(curr: nat, closest: seq<nat>, ghost ok: seq<bool>, r: real, m: Map) returns (kept: seq<nat>)
      requires curr < |coordinates| && InRange(|coordinates|, closest) && |ok| == |closest|
      requires forall i {:trigger EdgeValid(coordinates[closest[i]], coordinates[curr], m)} ::
                 0 <= i < |closest| ==> ok[i] == EdgeValid(coordinates[closest[i]], coordinates[curr], m)
      ensures kept == Survivors(coordinates, curr, closest, ok, r)
    {
      var currPoint := coordinates[curr];
      ghost var target := Survivors(coordinates, curr, closest, ok, r);
      kept := [];
      assert closest[0..] == closest && ok[0..] == ok;
      var i := 0;
      while i < |closest|
        invariant i <= |closest|
        invariant kept + Survivors(coordinates, curr, closest[i..], ok[i..], r) == target
      {
        var el := closest[i];
        var otherPoint := coordinates[el];
        SurvivorsAdvance(kept, coordinates, curr, closest[i..], ok[i..], r, target);
        assert closest[i..][1..] == closest[i + 1..] && ok[i..][1..] == ok[i + 1..];
        if !FartherThan(currPoint, otherPoint, r) {
          var valid := EdgeIsValid(otherPoint, currPoint, m);
          assert valid == ok[i];
          if valid {
            kept := kept + [el];
          }
        }
        i := i + 1;
      }
      assert kept + [] == kept;
    }
  }

  /**
   * The filter's bookkeeping over one candidate: `kept` followed by what
   * the rest of the filter keeps is always the whole filter's result.
   */
  lemma SurvivorsAdvance(kept: seq<nat>, coords: seq<Point>, c: nat, q: seq<nat>, ok: seq<bool>, r: real, target: seq<nat>)
    requires c < |coords| && InRange(|coords|, q) && |ok| == |q| && q != []
    requires kept + Survivors(coords, c, q, ok, r) == target
    ensures FartherThan(coords[c], coords[q[0]], r) || !ok[0] ==>
              kept + Survivors(coords, c, q[1..], ok[1..], r) == target
    ensures !FartherThan(coords[c], coords[q[0]], r) && ok[0] ==>
              (kept + [q[0]]) + Survivors(coords, c, q[1..], ok[1..], r) == target
  {
    var rest := Survivors(coords, c, q[1..], ok[1..], r);
    if FartherThan(coords[c], coords[q[0]], r) || !ok[0] {
      assert Survivors(coords, c, q, ok, r) == rest;
    } else {
      assert Survivors(coords, c, q, ok, r) == [q[0]] + rest;
      assert kept + [q[0]] + rest == kept + ([q[0]] + rest);
    }
  }

  /** One pass of the edge loop, which sets the next vertex's list, extends `Lists` by its ranking. */
  lemma PassStep(coords: seq<Point>, rankings: seq<seq<nat>>, q: seq<nat>, k: nat, r: real, m: Map,
                 prev: seq<seq<nat>>, next: seq<seq<nat>>)
    requires |rankings| < |coords| && AllRanked(coords, rankings, |rankings|) && AllCandidates(|coords|, rankings, |rankings|)
    requires forall j :: 0 <= j < |rankings| ==> k <= |rankings[j]|
    requires IsRanking(Distances(coords, coords[|rankings|]), |rankings|, q) && Candidates(|coords|, |rankings|, q)
    requires k <= |q| && InRange(|coords|, q[..k])
    requires prev == Lists(coords, rankings, |rankings|, k, r, m)
    requires next == prev[|rankings| := prev[|rankings|] + Kept(coords, |rankings|, q[..k], r, m)]
    ensures AllRanked(coords, rankings + [q], |rankings| + 1) && AllCandidates(|coords|, rankings + [q], |rankings| + 1)
    ensures forall j :: 0 <= j < |rankings| + 1 ==> k <= |(rankings + [q])[j]|
    ensures next == Lists(coords, rankings + [q], |rankings| + 1, k, r, m)
  {
    QueuesSnoc(coords, rankings, q);
    ListsSnoc(coords, rankings, q, k, r, m);
    var kept := Kept(coords, |rankings|, q[..k], r, m);
    assert prev[|rankings|] + kept == [] + kept == kept;
  }

  /** The next vertex's filtered queue prefix becomes its list. */
  lemma ListsSnoc(coords: seq<Point>, rankings: seq<seq<nat>>, q: seq<nat>, k: nat, r: real, m: Map)
    requires |rankings| < |coords| && AllCandidates(|coords|, rankings, |rankings|)
    requires forall j :: 0 <= j < |rankings| ==> k <= |rankings[j]|
    requires Candidates(|coords|, |rankings|, q) && k <= |q| && InRange(|coords|, q[..k])
    ensures AllCandidates(|coords|, rankings + [q], |rankings| + 1)
    ensures forall j :: 0 <= j < |rankings| + 1 ==> k <= |(rankings + [q])[j]|
    ensures Lists(coords, rankings + [q], |rankings| + 1, k, r, m)
            == Lists(coords, rankings, |rankings|, k, r, m)[|rankings| := Kept(coords, |rankings|, q[..k], r, m)]
  {
    var rs := rankings + [q];
    assert forall i :: 0 <= i < |rankings| ==> rs[i] == rankings[i];
    ListsPrefix(coords, rankings, rs, |rankings|, k, r, m);
  }

  /** The edge construction reads only the queues of the vertices already processed. */
  lemma {:induction false} ListsPrefix(coords: seq<Point>, rs: seq<seq<nat>>, rs': seq<seq<nat>>, n: nat, k: nat, r: real, m: Map)
    requires n <= |coords| && n <= |rs| && n <= |rs'| && forall j :: 0 <= j < n ==> rs[j] == rs'[j]
    requires AllCandidates(|coords|, rs, n) && forall j :: 0 <= j < n ==> k <= |rs[j]|
    ensures AllCandidates(|coords|, rs', n)
    ensures Lists(coords, rs, n, k, r, m) == Lists(coords, rs', n, k, r, m)
  {
    if n > 0 {
      ListsPrefix(coords, rs, rs', n - 1, k, r, m);
    }
  }

  /**
   * The source's constructor: a graph built over `m`, or the
   * IllegalArgumentException that `kClosest` throws. `rankings` are the
   * queues the vertices drew their closest from.
   */
  method NewGraph(m: Map, k: int, r: real) returns (res: Result<Graph>, ghost rankings: seq<seq<nat>>)
    ensures res.Err? <==> |KeptSamples(m, NumVertices)| > 0 && k > |KeptSamples(m, NumVertices)| - 1
    ensures res.Ok? ==> fresh(res.value) && res.value.coordinates == KeptSamples(m, NumVertices)
    ensures res.Ok? ==> |res.value.neighbors| == |res.value.coordinates| == |rankings|
    ensures res.Ok? ==>
              AllCandidates(|res.value.coordinates|, rankings, |res.value.coordinates|)
              && (forall i :: 0 <= i < |res.value.coordinates| ==> Fanout(k) <= |rankings[i]|)
              && res.value.neighbors == Lists(res.value.coordinates, rankings, |res.value.coordinates|, Fanout(k), r, m)
    ensures res.Ok? ==> forall i :: 0 <= i < |res.value.coordinates| ==>
              IsRanking(Distances(res.value.coordinates, res.value.coordinates[i]), i, rankings[i])
              && ListOk(res.value.coordinates, rankings[i], Fanout(k), r, m, i, res.value.neighbors[i])
  {
    var g := new Graph();
    var outcome;
    outcome, rankings := g.BuildGraph(m, k, r);
    if outcome.Fail? {
      return Err(outcome.error), rankings;
    }
    ListsOk(g.coordinates, rankings, |g.coordinates|, Fanout(k), r, m);
    return Ok(g), rankings;
  }
}
