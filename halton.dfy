/**
 * The two-dimensional Halton sequence: a pair of Van der Corput generators
 * in bases `p` and `q` that are always advanced together.
 */
module Halton {
  import opened VanDerCorputSequence

  class HaltonSequence {
    const xGen: VanDerCorput
    const yGen: VanDerCorput

    /** The two generators are distinct objects whose cursors agree. */
    ghost predicate Valid()
      reads this, xGen, yGen
    {
      xGen != yGen && xGen.index == yGen.index
    }

    /** The common cursor: how many points have been drawn since the start. */
    ghost function Index(): nat
      reads this, xGen
    {
      xGen.index
    }

    constructor (p: int, q: int)
      ensures fresh(xGen) && fresh(yGen) && Valid()
      ensures xGen.base == p && yGen.base == q && Index() == 0
    {
      xGen := new VanDerCorput(p);
      yGen := new VanDerCorput(q);
    }

    /**
     * The next point `(x, y)`: `x` from the base-`p` generator, `y` from the
     * base-`q` one, both at the same cursor, which then advances by one.
     */
    method Next() returns (pt: (real, real))
      requires Valid() && xGen.base >= 2 && yGen.base >= 2
      modifies xGen, yGen
      ensures Valid() && Index() == old(Index()) + 1
      ensures xGen.base == old(xGen.base) && yGen.base == old(yGen.base)
      ensures pt == (RadicalInverse(xGen.base, old(Index())), RadicalInverse(yGen.base, old(Index())))
      ensures 0.0 <= pt.0 < 1.0 && 0.0 <= pt.1 < 1.0
    {
      var x := xGen.Next();
      var y := yGen.Next();
      pt := (x, y);
    }

    /** Rewinds both generators to the start. */
    method Reset()
      requires Valid()
      modifies xGen, yGen
      ensures Valid() && Index() == 0 && yGen.index == 0
      ensures xGen.base == old(xGen.base) && yGen.base == old(yGen.base)
    {
      xGen.Reset();
      yGen.Reset();
    }
  }

  /** The `n`-th point of the Halton sequence in bases `p` and `q`, from 0. */
  function HaltonPoint(p: int, q: int, n: nat): (pt: (real, real))
    requires p >= 2 && q >= 2
    ensures 0.0 <= pt.0 < 1.0 && 0.0 <= pt.1 < 1.0
  {
    (RadicalInverse(p, n), RadicalInverse(q, n))
  }

  /** `count` successive points of `h`, starting at its current cursor. */
  method Take(h: HaltonSequence, count: nat) returns (pts: seq<(real, real)>)
    requires h.Valid() && h.xGen.base >= 2 && h.yGen.base >= 2
    modifies h.xGen, h.yGen
    ensures h.Valid() && h.Index() == old(h.Index()) + count
    ensures h.xGen.base == old(h.xGen.base) && h.yGen.base == old(h.yGen.base)
    ensures |pts| == count
    ensures forall i :: 0 <= i < count ==> pts[i] == HaltonPoint(h.xGen.base, h.yGen.base, old(h.Index()) + i)
  {
    pts := [];
    while |pts| < count
      invariant h.Valid() && |pts| <= count
      invariant h.xGen.base == old(h.xGen.base) && h.yGen.base == old(h.yGen.base)
      invariant h.Index() == old(h.Index()) + |pts|
      invariant forall i :: 0 <= i < |pts| ==> pts[i] == HaltonPoint(h.xGen.base, h.yGen.base, old(h.Index()) + i)
    {
      var pt := h.Next();
      pts := pts + [pt];
    }
  }

  /**
   * Two fresh sequences with the same bases yield the same points, the
   * `m`-th one being the radical inverses of `m - 1`; and after `Reset`
   * the first sequence yields them all again.
   */
  method SameStream(p: int, q: int, count: nat) returns (first: seq<(real, real)>, second: seq<(real, real)>, replay: seq<(real, real)>)
    requires p >= 2 && q >= 2
    ensures first == second == replay && |first| == count
    ensures forall i :: 0 <= i < count ==> first[i] == (RadicalInverse(p, i), RadicalInverse(q, i))
  {
    var h1 := new HaltonSequence(p, q);
    var h2 := new HaltonSequence(p, q);
    first := Take(h1, count);
    second := Take(h2, count);
    h1.Reset();
    replay := Take(h1, count);
  }
}
