/**
 Counting the marked edges of a closed cycle. Nothing here knows about geometry:
 `edge` is any test on two neighbouring vertices, the later one first.
 */
module Walks {

  /** How many edges between neighbours in s[lo..hi] pass the test. */
  function Count<V>(s: seq<V>, lo: nat, hi: nat, edge: (V, V) -> bool): nat
    requires hi <= |s|
  {
    if lo + 2 > hi then 0
    else Count(s, lo, hi - 1, edge) + Bit(edge(s[hi - 1], s[hi - 2]))
  }

  function Bit(b: bool): nat { if b then 1 else 0 }

  /** The same for the whole cycle, with the edge that closes it. */
  function Around<V>(s: seq<V>, edge: (V, V) -> bool): nat {
    if s == [] then 0 else Count(s, 0, |s|, edge) + Bit(edge(s[0], s[|s| - 1]))
  }

  /** An odd number of the edges of a cycle pass the test. */
  predicate Odd<V>(s: seq<V>, edge: (V, V) -> bool) {
    Around(s, edge) % 2 == 1
  }

  ghost predicate Symmetric<V(!new)>(edge: (V, V) -> bool) {
    forall a, b :: edge(a, b) == edge(b, a)
  }

  /** The parity after the closing edge and the first `k - 1` others. */
  ghost predicate OddUpTo<V>(s: seq<V>, k: nat, edge: (V, V) -> bool)
    requires k <= |s|
  {
    k > 0 && (Count(s, 0, k, edge) + Bit(edge(s[0], s[|s| - 1]))) % 2 == 1
  }

  lemma OddStep<V>(s: seq<V>, k: nat, edge: (V, V) -> bool)
    requires k < |s|
    ensures OddUpTo(s, k + 1, edge) == (OddUpTo(s, k, edge) != edge(s[k], s[if k == 0 then |s| - 1 else k - 1]))
  {
  }

  lemma OddAll<V>(s: seq<V>, edge: (V, V) -> bool)
    ensures OddUpTo(s, |s|, edge) == Odd(s, edge)
    ensures !OddUpTo(s, 0, edge)
  {
  }

  lemma OddOfFour<V>(s: seq<V>, edge: (V, V) -> bool)
    requires |s| == 4
    ensures Odd(s, edge) == (((edge(s[0], s[3]) != edge(s[1], s[0])) != edge(s[2], s[1])) != edge(s[3], s[2]))
  {
    OddAll(s, edge);
    OddStep(s, 0, edge);
    OddStep(s, 1, edge);
    OddStep(s, 2, edge);
    OddStep(s, 3, edge);
  }

  lemma {:induction false} CountSplit<V>(s: seq<V>, lo: nat, mid: nat, hi: nat, edge: (V, V) -> bool)
    requires lo <= mid < hi <= |s|
    ensures Count(s, lo, hi, edge) == Count(s, lo, mid + 1, edge) + Count(s, mid, hi, edge)
  {
    if mid + 1 < hi { CountSplit(s, lo, mid, hi - 1, edge); }
  }

  /** Counting in a piece of another list. */
  lemma {:induction false} CountShift<V>(t: seq<V>, lo: nat, hi: nat, s: seq<V>, from: nat, edge: (V, V) -> bool)
    requires lo <= hi <= |t| && hi - lo + from <= |s|
    requires forall i :: lo <= i < hi ==> t[i] == s[i - lo + from]
    ensures Count(t, lo, hi, edge) == Count(s, from, hi - lo + from, edge)
  {
    if lo + 2 <= hi { CountShift(t, lo, hi - 1, s, from, edge); }
  }

  function Reversed<V>(s: seq<V>): (r: seq<V>)
    ensures |r| == |s| && forall i :: 0 <= i < |s| ==> r[i] == s[|s| - 1 - i]
  {
    if s == [] then [] else [s[|s| - 1]] + Reversed(s[..|s| - 1])
  }

  lemma {:induction false} CountReversed<V(!new)>(s: seq<V>, r: seq<V>, hi: nat, edge: (V, V) -> bool)
    requires Symmetric(edge) && hi <= |s| == |r| && forall i :: 0 <= i < |s| ==> r[i] == s[|s| - 1 - i]
    ensures Count(r, 0, hi, edge) == Count(s, |s| - hi, |s|, edge)
  {
    if hi >= 2 {
      CountReversed(s, r, hi - 1, edge);
      CountSplit(s, |s| - hi, |s| - hi + 1, |s|, edge);
      assert Count(s, |s| - hi, |s| - hi + 2, edge) == Bit(edge(s[|s| - hi + 1], s[|s| - hi]));
    }
  }

  lemma CycleReversed<V(!new)>(s: seq<V>, edge: (V, V) -> bool)
    requires Symmetric(edge)
    ensures Odd(Reversed(s), edge) == Odd(s, edge)
  {
    if s != [] { CountReversed(s, Reversed(s), |s|, edge); }
  }

  /** The walk from `b` to the end and on from the start up to `h`. */
  lemma CountWrap<V>(s: seq<V>, b: nat, h: nat, edge: (V, V) -> bool)
    requires b < |s| && 0 < h <= |s|
    ensures var t := s[b..] + s[..h];
      Count(t, 0, |t|, edge) == Count(s, b, |s|, edge) + Bit(edge(s[0], s[|s| - 1])) + Count(s, 0, h, edge)
  {
    var t, m := s[b..] + s[..h], |s| - b;
    CountSplit(t, 0, m - 1, |t|, edge);
    CountSplit(t, m - 1, m, |t|, edge);
    CountShift(t, 0, m, s, b, edge);
    CountShift(t, m, |t|, s, 0, edge);
    assert Count(t, m - 1, m + 1, edge) == Bit(edge(t[m], t[m - 1]));
  }

  lemma CycleRotated<V>(s: seq<V>, k: nat, edge: (V, V) -> bool)
    requires k <= |s|
    ensures Odd(s[k..] + s[..k], edge) == Odd(s, edge)
  {
    var rotated := s[k..] + s[..k];
    if 0 < k < |s| {
      CountWrap(s, k, k, edge);
      CountSplit(s, 0, k, |s|, edge);
      assert Around(rotated, edge) == Around(s, edge);
    } else {
      assert rotated == s;
    }
  }

  /** The two parts along a chord count every edge of the whole once and the chord twice. */
  lemma ChordCounts<V(!new)>(s: seq<V>, a: nat, b: nat, edge: (V, V) -> bool)
    requires a <= b < |s| && Symmetric(edge)
    ensures Around(s[a..b + 1], edge) + Around(s[b..] + s[..a + 1], edge) == Around(s, edge) + 2 * Bit(edge(s[a], s[b]))
  {
    var near := s[a..b + 1];
    CountShift(near, 0, |near|, s, a, edge);
    CountWrap(s, b, a + 1, edge);
    CountSplit(s, 0, a, |s|, edge);
    CountSplit(s, a, b, |s|, edge);
  }

  lemma CycleChord<V(!new)>(s: seq<V>, a: nat, b: nat, edge: (V, V) -> bool)
    requires a <= b < |s| && Symmetric(edge)
    ensures Odd(s, edge) == (Odd(s[a..b + 1], edge) != Odd(s[b..] + s[..a + 1], edge))
  {
    ChordCounts(s, a, b, edge);
    Parity(Around(s[a..b + 1], edge), Around(s[b..] + s[..a + 1], edge), Around(s, edge), Bit(edge(s[a], s[b])));
  }

  lemma Parity(x: nat, y: nat, z: nat, c: nat)
    requires x + y == z + 2 * c
    ensures (z % 2 == 1) == ((x % 2 == 1) != (y % 2 == 1))
  {
  }

  /** When the test asks whether the two ends differ in `side`, the ends of the walk decide the parity. */
  lemma {:induction false} CountParity<V>(s: seq<V>, hi: nat, edge: (V, V) -> bool, side: V -> bool)
    requires 0 < hi <= |s|
    requires forall a, b :: a in s && b in s ==> edge(a, b) == (side(a) != side(b))
    ensures (Count(s, 0, hi, edge) % 2 == 1) == (side(s[0]) != side(s[hi - 1]))
  {
    if hi >= 2 {
      CountParity(s, hi - 1, edge, side);
      assert s[hi - 1] in s && s[hi - 2] in s;
    }
  }

  /** A cycle changes sides an even number of times. */
  lemma CycleIsEven<V>(s: seq<V>, edge: (V, V) -> bool, side: V -> bool)
    requires forall a, b :: a in s && b in s ==> edge(a, b) == (side(a) != side(b))
    ensures !Odd(s, edge)
  {
    if s != [] {
      CountParity(s, |s|, edge, side);
      assert s[0] in s && s[|s| - 1] in s;
    }
  }

  lemma {:induction false} CountNone<V>(s: seq<V>, hi: nat, edge: (V, V) -> bool)
    requires hi <= |s| && forall a, b :: a in s && b in s ==> !edge(a, b)
    ensures Count(s, 0, hi, edge) == 0
    ensures s != [] ==> !edge(s[0], s[|s| - 1])
  {
    if hi >= 2 {
      CountNone(s, hi - 1, edge);
      assert s[hi - 1] in s && s[hi - 2] in s;
    }
    if s != [] { assert s[0] in s && s[|s| - 1] in s; }
  }
}
