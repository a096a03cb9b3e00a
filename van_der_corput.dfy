/**
 * The Van der Corput low-discrepancy sequence: a cursor over the naturals
 * whose `Next` yields the radical inverse of the cursor in a fixed base.
 *
 * The source accumulates the value in doubles; this model keeps it exact, as
 * the real number whose base-`b` digits are those of the cursor reversed and
 * placed after the point.
 */
module VanDerCorputSequence {

  /**
   * The radical inverse of `n` in base `b`: digit `i` of `n` (least
   * significant first) contributes `digit * b^-(i+1)`. Written here in the
   * Horner form of that sum; `DigitExpansion` below is the sum itself.
   */
  function RadicalInverse(b: int, n: nat): (r: real)
    requires b >= 2
    ensures 0.0 <= r < 1.0
  {
    if n == 0 then 0.0
    else
      var rest := RadicalInverse(b, n / b);
      FractionBelowOne((n % b) as real + rest, b as real);
      ((n % b) as real + rest) / (b as real)
  }

  lemma FractionBelowOne(x: real, d: real)
    requires 0.0 <= x < d
    ensures 0.0 <= x / d < 1.0
  {
  }

  /** Dividing by the base shortens a positive cursor: the digit loop ends. */
  lemma QuotientSmaller(n: int, b: int)
    requires n > 0 && b >= 2
    ensures 0 <= n / b < n
  {
  }

  /** The base-`b` digits of `n`, least significant first. */
  function Digits(b: int, n: nat): (ds: seq<int>)
    requires b >= 2
    ensures forall i :: 0 <= i < |ds| ==> 0 <= ds[i] < b
  {
    if n == 0 then [] else [n % b] + Digits(b, n / b)
  }

  /** `b^-e`. */
  function InvPow(b: int, e: nat): (p: real)
    requires b >= 2
    ensures p > 0.0
  {
    if e == 0 then 1.0 else InvPow(b, e - 1) / (b as real)
  }

  /** `ds[0] * b^-1 + ... + ds[k-1] * b^-k`. */
  function DigitExpansion(b: int, ds: seq<int>, k: nat): real
    requires b >= 2 && k <= |ds|
  {
    if k == 0 then 0.0 else DigitExpansion(b, ds, k - 1) + (ds[k - 1] as real) * InvPow(b, k)
  }

  lemma AddDiv(x: real, y: real, bb: real)
    requires bb > 0.0
    ensures (x + y) / bb == x / bb + y / bb
  {
  }

  lemma MulDiv(x: real, p: real, bb: real)
    requires bb > 0.0
    ensures x * (p / bb) == (x * p) / bb
  {
  }

  lemma {:induction false} ShiftDigits(b: int, d: int, ds: seq<int>, k: nat)
    requires b >= 2 && k <= |ds|
    ensures DigitExpansion(b, [d] + ds, k + 1) == (d as real) / (b as real) + DigitExpansion(b, ds, k) / (b as real)
  {
    var bb := b as real;
    if k == 0 {
      MulDiv(d as real, 1.0, bb);
    } else {
      ShiftDigits(b, d, ds, k - 1);
      assert ([d] + ds)[k] == ds[k - 1];
      ShiftStep(DigitExpansion(b, [d] + ds, k + 1), DigitExpansion(b, [d] + ds, k), (d as real) / bb,
        DigitExpansion(b, ds, k), DigitExpansion(b, ds, k - 1), ds[k - 1] as real, InvPow(b, k), InvPow(b, k + 1), bb);
    }
  }

  lemma ShiftStep(e1: real, e0: real, dq: real, f1: real, f0: real, x: real, p: real, p1: real, bb: real)
    requires bb > 0.0 && p1 == p / bb
    requires e1 == e0 + x * p1 && e0 == dq + f0 / bb && f1 == f0 + x * p
    ensures e1 == dq + f1 / bb
  {
    MulDiv(x, p, bb);
    AddDiv(f0, x * p, bb);
  }

  /** The Horner form over a digit sequence. */
  function Horner(b: int, ds: seq<int>): real
    requires b >= 2
  {
    if ds == [] then 0.0 else ((ds[0] as real) + Horner(b, ds[1..])) / (b as real)
  }

  lemma {:induction false} RadicalInverseIsHorner(b: int, n: nat)
    requires b >= 2
    ensures RadicalInverse(b, n) == Horner(b, Digits(b, n))
  {
    if n > 0 {
      QuotientSmaller(n, b);
      var d, q := n % b, n / b;
      RadicalInverseIsHorner(b, q);
      var ds := Digits(b, n);
      assert ds[0] == d && ds[1..] == Digits(b, q);
    }
  }

  lemma {:induction false} HornerIsExpansion(b: int, ds: seq<int>)
    requires b >= 2
    ensures Horner(b, ds) == DigitExpansion(b, ds, |ds|)
  {
    if ds != [] {
      var rest := ds[1..];
      HornerIsExpansion(b, rest);
      assert ds == [ds[0]] + rest;
      ShiftDigits(b, ds[0], rest, |rest|);
      AddDiv(ds[0] as real, Horner(b, rest), b as real);
    }
  }

  /** Digit `i` of the cursor contributes `digit * b^-(i+1)` to its radical inverse. */
  lemma RadicalInverseIsDigitExpansion(b: int, n: nat)
    requires b >= 2
    ensures RadicalInverse(b, n) == DigitExpansion(b, Digits(b, n), |Digits(b, n)|)
  {
    RadicalInverseIsHorner(b, n);
    HornerIsExpansion(b, Digits(b, n));
  }

  /** The first values in base 2: 0, 1/2, 1/4, 3/4. */
  lemma BaseTwoPrefix()
    ensures RadicalInverse(2, 0) == 0.0
    ensures RadicalInverse(2, 1) == 0.5
    ensures RadicalInverse(2, 2) == 0.25
    ensures RadicalInverse(2, 3) == 0.75
  {
    assert RadicalInverse(2, 1) == 0.5;
    assert RadicalInverse(2, 2) == 0.25;
  }

  /** `2^m - 1`, the base-2 cursor whose `m` digits are all ones. */
  function TopIndex(m: nat): nat
  {
    if m == 0 then 0 else 2 * TopIndex(m - 1) + 1
  }

  /** `2^-m`. */
  function HalfPow(m: nat): (h: real)
    ensures 0.0 < h <= 1.0
  {
    if m == 0 then 1.0 else HalfPow(m - 1) / 2.0
  }

  /**
   * In base 2 the cursor `2^m - 1` yields `1 - 2^-m`: the values come
   * arbitrarily close to 1, which is what ends the edge check's sampling.
   */
  lemma {:induction false} TopValue(m: nat)
    ensures RadicalInverse(2, TopIndex(m)) == 1.0 - HalfPow(m)
  {
    if m > 0 {
      var t := TopIndex(m - 1);
      TopValue(m - 1);
      assert TopIndex(m) % 2 == 1 && TopIndex(m) / 2 == t;
    }
  }

  /**
   * A generator: the cursor `index` and the `base`. `Next` returns the
   * radical inverse of the cursor and advances it; `Reset` rewinds it.
   */
  class VanDerCorput {
    var index: nat
    var base: int

    constructor (base: int)
      ensures this.index == 0 && this.base == base
    {
      this.index := 0;
      this.base := base;
    }

    /**
     * The radical inverse of the cursor, accumulated digit by digit from the
     * least significant one, each scaled by the next negative power of the
     * base. The base is not checked by the source's constructor; below 2 the
     * digit loop would not end (1), divide by zero (0) or misbehave.
     */
    method Next() returns (r: real)
      requires base >= 2
      modifies this
      ensures index == old(index) + 1 && base == old(base)
      ensures r == RadicalInverse(base, old(index))
      ensures 0.0 <= r < 1.0
    {
      var b := base;
      var n: nat := index;
      var ret := 0.0;
      var multiplier := 1.0 / (b as real);
      ghost var ds := Digits(b, n);
      ghost var k: nat := 0;
      while n > 0
        modifies {}
        invariant k <= |ds| && Digits(b, n) == ds[k..]
        invariant multiplier == InvPow(b, k + 1)
        invariant ret == DigitExpansion(b, ds, k)
        decreases n
      {
        ret, multiplier, n := AccumulateDigit(b, n, ret, multiplier, ds, k);
        k := k + 1;
      }
      RadicalInverseIsDigitExpansion(b, index);
      index := index + 1;
      r := ret;
    }

    /** Rewinds the cursor to the start of the sequence. */
    method Reset()
      modifies this
      ensures index == 0 && base == old(base)
    {
      index := 0;
    }
  }

  /**
   * One pass of the digit loop of `VanDerCorput.Next`: add the last digit of
   * `n` times `multiplier`, divide `multiplier` by the base and drop the digit.
   * When `n` holds the digits `ds[k..]` still to come and `ret` the sum of the
   * first `k`, the pass adds digit `k` at its weight `b^-(k+1)`.
   */
  method AccumulateDigit(b: int, n: nat, ret: real, multiplier: real, ghost ds: seq<int>, ghost k: nat)
    returns (ret': real, multiplier': real, n': nat)
    requires b >= 2 && n > 0 && k <= |ds| && Digits(b, n) == ds[k..]
    requires multiplier == InvPow(b, k + 1) && ret == DigitExpansion(b, ds, k)
    ensures k + 1 <= |ds| && Digits(b, n') == ds[k + 1..]
    ensures multiplier' == InvPow(b, k + 2) && ret' == DigitExpansion(b, ds, k + 1)
    ensures n' < n
  {
    var digit := n % b;
    QuotientSmaller(n, b);
    n' := n / b;
    assert Digits(b, n) == [digit] + Digits(b, n');
    multiplier' := multiplier / (b as real);
    ret' := ret + (digit as real) * multiplier;
  }

  /**
   * Draws `count` values from a fresh generator, resets it and draws `count`
   * values again: the output depends only on the cursor and the base, so the
   * replay reproduces the original stream, which is the radical inverses of
   * 0, 1, 2, ... in order.
   */
  method DrawTwice(base: int, count: nat) returns (first: seq<real>, replay: seq<real>)
    requires base >= 2
    ensures |first| == count && first == replay
    ensures forall i :: 0 <= i < count ==> first[i] == RadicalInverse(base, i)
  {
    var g := new VanDerCorput(base);
    first := Draw(g, count);
    g.Reset();
    replay := Draw(g, count);
  }

  /** `count` successive values of `g`, starting at its current cursor. */
  method Draw(g: VanDerCorput, count: nat) returns (values: seq<real>)
    requires g.base >= 2
    modifies g
    ensures g.base == old(g.base) && g.index == old(g.index) + count
    ensures |values| == count
    ensures forall i :: 0 <= i < count ==> values[i] == RadicalInverse(g.base, old(g.index) + i)
  {
    values := [];
    while |values| < count
      invariant |values| <= count
      invariant g.base == old(g.base) && g.index == old(g.index) + |values|
      invariant forall i :: 0 <= i < |values| ==> values[i] == RadicalInverse(g.base, old(g.index) + i)
    {
      var v := g.Next();
      values := values + [v];
    }
  }
}
