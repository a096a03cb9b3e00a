/**
 * The candidate queue of both roadmap builders: every vertex other than the
 * reference one, ordered by nondecreasing distance from it.
 *
 * The source fills a `java.util.PriorityQueue` whose comparator never
 * reports a tie, so equally distant vertices come out in an order the
 * library decides. A ranking is therefore any ordering of the other vertices
 * sorted by distance; the facts proved here hold for each of them.
 */
module Ranking {
  import opened Geometry

  /**
   * The squared distance from `from` to each vertex, by index: the key the
   * queue orders on.
   */
  function Distances(coords: seq<Point>, from: Point): (d: seq<real>)
    ensures |d| == |coords|
  {
    seq(|coords|, i requires 0 <= i < |coords| => Dist2(from, coords[i]))
  }

  /** Every entry of `q` indexes a vertex among `n`. */
  predicate InRange(n: nat, q: seq<nat>)
  {
    forall i :: 0 <= i < |q| ==> q[i] < n
  }

  /** The entries of `q` are in nondecreasing key `d`. */
  predicate SortedBy(d: seq<real>, q: seq<nat>)
    requires InRange(|d|, q)
  {
    forall i, j :: 0 <= i < j < |q| ==> d[q[i]] <= d[q[j]]
  }

  /**
   * `q` is a possible content of the queue of vertex `c`, in removal order,
   * when `d` holds the distances from `c`.
   */
  ghost predicate IsRanking(d: seq<real>, c: nat, q: seq<nat>)
  {
    c < |d| && |q| == |d| - 1 && InRange(|d|, q)
    && (forall j: nat :: multiset(q)[j] == if j < |d| && j != c then 1 else 0)
    && SortedBy(d, q)
  }

  lemma TwoOccurrences(q: seq<nat>, i: nat, j: nat)
    requires i < j < |q| && q[i] == q[j]
    ensures multiset(q)[q[i]] >= 2
  {
    assert q == q[..j] + q[j..];
    assert q[i] in q[..j];
    assert q[j] in q[j..];
  }

  /**
   * A ranking of vertex `c` lists every other vertex exactly once and never
   * `c` itself.
   */
  lemma RankingFacts(d: seq<real>, c: nat, q: seq<nat>)
    requires IsRanking(d, c, q)
    ensures |q| == |d| - 1
    ensures forall i :: 0 <= i < |q| ==> q[i] != c
    ensures forall i, j :: 0 <= i < j < |q| ==> q[i] != q[j]
    ensures forall j :: 0 <= j < |d| && j != c ==> j in q
  {
    forall i | 0 <= i < |q|
      ensures q[i] != c
    {
      assert q[i] in multiset(q);
    }
    forall i, j | 0 <= i < j < |q|
      ensures q[i] != q[j]
    {
      if q[i] == q[j] {
        TwoOccurrences(q, i, j);
      }
    }
    forall j | 0 <= j < |d| && j != c
      ensures j in q
    {
      assert j in multiset(q);
    }
  }

  /** Where the queue places `x`: after every entry whose key is no larger. */
  function InsertPos(d: seq<real>, q: seq<nat>, x: nat): (k: nat)
    requires InRange(|d|, q) && x < |d|
    ensures k <= |q|
    ensures forall i :: 0 <= i < k ==> d[q[i]] <= d[x]
    ensures k < |q| ==> d[q[k]] > d[x]
  {
    if q == [] then 0
    else if d[q[0]] <= d[x] then 1 + InsertPos(d, q[1..], x)
    else 0
  }

  /** Adding `x` to a sorted queue keeps it sorted and holds one more `x`. */
  function Insert(d: seq<real>, q: seq<nat>, x: nat): (r: seq<nat>)
    requires InRange(|d|, q) && SortedBy(d, q) && x < |d|
    ensures InRange(|d|, r) && SortedBy(d, r)
    ensures multiset(r) == multiset(q) + multiset{x}
  {
    var k := InsertPos(d, q, x);
    InsertKeepsOrder(d, q, x, k);
    assert q == q[..k] + q[k..];
    q[..k] + [x] + q[k..]
  }

  lemma InsertKeepsOrder(d: seq<real>, q: seq<nat>, x: nat, k: nat)
    requires InRange(|d|, q) && SortedBy(d, q) && x < |d| && k == InsertPos(d, q, x)
    ensures InRange(|d|, q[..k] + [x] + q[k..])
    ensures SortedBy(d, q[..k] + [x] + q[k..])
  {
    var r := q[..k] + [x] + q[k..];
    InsertInRange(d, q, x, k);
    forall i, j | 0 <= i < j < |r|
      ensures d[r[i]] <= d[r[j]]
    {
      InsertedPairOrder(d, q, x, k, i, j);
    }
  }

  lemma InsertInRange(d: seq<real>, q: seq<nat>, x: nat, k: nat)
    requires InRange(|d|, q) && x < |d| && k <= |q|
    ensures InRange(|d|, q[..k] + [x] + q[k..])
  {
    var r := q[..k] + [x] + q[k..];
    forall i | 0 <= i < |r|
      ensures r[i] < |d|
    {
      if i < k {
        assert r[i] == q[i];
      } else if i > k {
        assert r[i] == q[i - 1];
      }
    }
  }

  lemma InsertedPairOrder(d: seq<real>, q: seq<nat>, x: nat, k: nat, i: nat, j: nat)
    requires InRange(|d|, q) && SortedBy(d, q) && x < |d| && k <= |q|
    requires forall i :: 0 <= i < k ==> d[q[i]] <= d[x]
    requires k < |q| ==> d[q[k]] > d[x]
    requires i < j < |q| + 1
    ensures var r := q[..k] + [x] + q[k..]; r[i] < |d| && r[j] < |d| && d[r[i]] <= d[r[j]]
  {
    var r := q[..k] + [x] + q[k..];
    if j < k {
      assert r[i] == q[i] && r[j] == q[j];
    } else if j == k {
      assert r[i] == q[i] && r[j] == x;
    } else if i < k {
      assert r[i] == q[i] && r[j] == q[j - 1];
    } else if i == k {
      assert r[i] == x && r[j] == q[j - 1];
      assert d[q[k]] <= d[q[j - 1]];
    } else {
      assert r[i] == q[i - 1] && r[j] == q[j - 1];
    }
  }

  /** Each added index other than `c` occurs exactly once among the first `n`. */
  ghost predicate CountsUpTo(q: seq<nat>, c: nat, n: nat)
  {
    |q| == (if c < n then n - 1 else n)
    && forall j: nat :: multiset(q)[j] == if j < n && j != c then 1 else 0
  }

  /** Inserting `x` adds one occurrence of `x` and one element. */
  lemma InsertCounts(d: seq<real>, q: seq<nat>, x: nat)
    requires InRange(|d|, q) && SortedBy(d, q) && x < |d|
    ensures |Insert(d, q, x)| == |q| + 1
    ensures forall j: nat :: multiset(Insert(d, q, x))[j] == multiset(q)[j] + if j == x then 1 else 0
  {
    var r := Insert(d, q, x);
    assert |r| == |multiset(r)|;
  }

  /** One pass of the filling loop: index `x` is added unless it is `c`. */
  lemma CountsStep(d: seq<real>, p: seq<nat>, c: nat, x: nat)
    requires InRange(|d|, p) && SortedBy(d, p) && CountsUpTo(p, c, x) && x < |d|
    ensures x != c ==> CountsUpTo(Insert(d, p, x), c, x + 1)
    ensures x == c ==> CountsUpTo(p, c, x + 1)
  {
    if x != c {
      var q: seq<nat> := Insert(d, p, x);
      InsertCounts(d, p, x);
      forall j: nat
        ensures multiset(q)[j] == if j < x + 1 && j != c then 1 else 0
      {
        assert multiset(q)[j] == multiset(p)[j] + if j == x then 1 else 0;
      }
    }
  }

  /**
   * Adding the indices `0 .. n-1` other than `c` in increasing order gives
   * a sorted queue holding each of them once.
   */
  lemma {:induction false} PartialRanking(d: seq<real>, c: nat, n: nat) returns (q: seq<nat>)
    requires n <= |d|
    ensures InRange(|d|, q) && SortedBy(d, q) && CountsUpTo(q, c, n)
  {
    if n == 0 {
      q := [];
      assert multiset(q) == multiset{};
    } else {
      var p: seq<nat> := PartialRanking(d, c, n - 1);
      CountsStep(d, p, c, n - 1);
      q := if n - 1 == c then p else Insert(d, p, n - 1);
    }
  }

  /** Every vertex has a ranking of the others, whatever the distances. */
  lemma RankingExists(d: seq<real>, c: nat) returns (q: seq<nat>)
    requires c < |d|
    ensures IsRanking(d, c, q)
  {
    q := PartialRanking(d, c, |d|);
  }

  /**
   * The source's queue filling: every index other than `c`, added in
   * increasing order, keyed by the distance from vertex `c`.
   */
  method RankOthers(coords: seq<Point>, c: nat) returns (q: seq<nat>)
    requires c < |coords|
    ensures IsRanking(Distances(coords, coords[c]), c, q)
  {
    var d := Distances(coords, coords[c]);
    q := [];
    assert multiset(q) == multiset{};
    var i := 0;
    while i < |coords|
      invariant i <= |coords|
      invariant InRange(|d|, q) && SortedBy(d, q) && CountsUpTo(q, c, i)
    {
      CountsStep(d, q, c, i);
      if i != c {
        q := Insert(d, q, i);
      }
      i := i + 1;
    }
  }

  /** Whether every candidate of `q` indexes a vertex other than `c`. */
  predicate Candidates(n: nat, c: nat, q: seq<nat>)
  {
    forall i :: 0 <= i < |q| ==> q[i] < n && q[i] != c
  }

  /** A ranking lists candidates only. */
  lemma RankingCandidates(d: seq<real>, c: nat, q: seq<nat>)
    requires IsRanking(d, c, q)
    ensures Candidates(|d|, c, q)
  {
    RankingFacts(d, c, q);
  }

  /** Each of the first `count` queues lists candidates of its own vertex. */
  predicate AllCandidates(n: nat, rankings: seq<seq<nat>>, count: nat)
  {
    count <= |rankings| && forall i :: 0 <= i < count ==> Candidates(n, i, rankings[i])
  }

  /** Each of the first `count` queues is a ranking of the other vertices. */
  ghost predicate AllRanked(coords: seq<Point>, rankings: seq<seq<nat>>, count: nat)
  {
    count <= |rankings| && count <= |coords|
    && forall i :: 0 <= i < count ==> IsRanking(Distances(coords, coords[i]), i, rankings[i])
  }

  /** Recording the queue of the next vertex. */
  lemma QueuesSnoc(coords: seq<Point>, rankings: seq<seq<nat>>, q: seq<nat>)
    requires |rankings| < |coords|
    requires AllRanked(coords, rankings, |rankings|) && AllCandidates(|coords|, rankings, |rankings|)
    requires IsRanking(Distances(coords, coords[|rankings|]), |rankings|, q)
    requires Candidates(|coords|, |rankings|, q)
    ensures AllRanked(coords, rankings + [q], |rankings| + 1)
    ensures AllCandidates(|coords|, rankings + [q], |rankings| + 1)
  {
    var rs := rankings + [q];
    assert forall i :: 0 <= i < |rankings| ==> rs[i] == rankings[i];
  }
}
