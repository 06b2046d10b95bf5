/** Fault injection restricted to duplicates and adjacent swaps; the generator is an oracle of draws. */
module Faults {
  import opened Collections
  import opened Schemas

  /** The n-th draw of the generator. */
  type Draws = nat -> real

  function CopyOf(p: Telemetry): Telemetry {
    p.(id := p.id + "-dup")
  }

  /** Does the k-th draw hit? A rate that is not positive never hits. */
  predicate Hits(rate: real, draws: Draws, k: nat) {
    rate > 0.0 && draws(k) < rate
  }

  /** Only a positive rate draws. */
  function Drawn(rate: real, k: nat): nat {
    if rate > 0.0 then k + 1 else k
  }

  /** The copies go in right after their originals; the second result counts the draws. */
  function Inject(points: seq<Telemetry>, rate: real, draws: Draws): (r: (seq<Telemetry>, nat)) {
    if points == [] then ([], 0)
    else
      var n := |points| - 1;
      var r := Inject(points[..n], rate, draws);
      (if Hits(rate, draws, r.1) then r.0 + [points[n], CopyOf(points[n])] else r.0 + [points[n]], Drawn(rate, r.1))
  }

  /** Disjoint adjacent swaps from position `i` on, drawing from `k` on. */
  function Swap<T>(s: seq<T>, i: nat, rate: real, draws: Draws, k: nat): (r: seq<T>)
    ensures |r| == |s|
    decreases |s| - i
  {
    if i + 1 >= |s| then s
    else if Hits(rate, draws, k) then Swap(Exchanged(s, i), i + 2, rate, draws, Drawn(rate, k))
    else Swap(s, i + 1, rate, draws, Drawn(rate, k))
  }

  function Faulted(points: seq<Telemetry>, duplicateRate: real, outOfOrderRate: real, draws: Draws): (r: seq<Telemetry>) {
    var (out, k) := Inject(points, duplicateRate, draws);
    Swap(out, 0, outOfOrderRate, draws, k)
  }

  method Apply(points: seq<Telemetry>, duplicateRate: real, outOfOrderRate: real, draws: Draws)
    returns (result: seq<Telemetry>)
    ensures result == Faulted(points, duplicateRate, outOfOrderRate, draws)
  {
    var out, k := [], 0;
    for i := 0 to |points|
      invariant (out, k) == Inject(points[..i], duplicateRate, draws)
    {
      NextPrefix(points, i);
      var q := points[i];
      out := out + [q];
      if duplicateRate > 0.0 {
        if draws(k) < duplicateRate {
          assert out + [CopyOf(q)] == out[..|out| - 1] + [q, CopyOf(q)];
          out := out + [CopyOf(q)];
        }
        k := k + 1;
      }
    }
    WholePrefix(points);
    var shuffled := new Telemetry[|out|](j requires 0 <= j < |out| => out[j]);
    assert shuffled[..] == out;
    SwapPass(shuffled, outOfOrderRate, draws, k);
    result := shuffled[..];
  }

  /** The in-place loop over adjacent pairs. */
  method SwapPass<T>(out: array<T>, rate: real, draws: Draws, first: nat)
    modifies out
    ensures out[..] == Swap(old(out[..]), 0, rate, draws, first)
  {
    var i, k := 0, first;
    ghost var target := Swap(out[..], 0, rate, draws, first);
    while i + 1 < out.Length
      invariant 0 <= i
      invariant Swap(out[..], i, rate, draws, k) == target
      decreases out.Length - i
    {
      i, k := SwapTurn(out, i, rate, draws, k, target);
    }
  }

  /** One turn of the loop: draw, swap on a hit, move on. */
  method SwapTurn<T>(out: array<T>, i: nat, rate: real, draws: Draws, k: nat, ghost target: seq<T>)
    returns (i': nat, k': nat)
    requires i + 1 < out.Length && Swap(out[..], i, rate, draws, k) == target
    modifies out
    ensures i < i' && Swap(out[..], i', rate, draws, k') == target
  {
    i', k' := i, k;
    if rate > 0.0 {
      var hit := draws(k') < rate;
      k' := k' + 1;
      if hit {
        ghost var before := out[..];
        out[i'], out[i' + 1] := out[i' + 1], out[i'];
        assert out[..] == Exchanged(before, i);
        i' := i' + 1;
      }
    }
    i' := i' + 1;
  }

  function Exchanged<T>(s: seq<T>, i: nat): (r: seq<T>)
    requires i + 1 < |s|
    ensures |r| == |s|
  {
    s[i := s[i + 1]][i + 1 := s[i]]
  }

  lemma ExchangePermutes<T>(s: seq<T>, i: nat)
    requires i + 1 < |s|
    ensures multiset(Exchanged(s, i)) == multiset(s)
  {
  }

  lemma {:induction false} SwapsPermute<T>(s: seq<T>, i: nat, rate: real, draws: Draws, k: nat)
    ensures multiset(Swap(s, i, rate, draws, k)) == multiset(s)
    decreases |s| - i
  {
    if i + 1 < |s| {
      if Hits(rate, draws, k) {
        ExchangePermutes(s, i);
        SwapsPermute(Exchanged(s, i), i + 2, rate, draws, Drawn(rate, k));
      } else {
        SwapsPermute(s, i + 1, rate, draws, Drawn(rate, k));
      }
    }
  }

  /** No point moves further than one place. */
  lemma {:induction false} SwapsAreLocal<T>(s: seq<T>, i: nat, rate: real, draws: Draws, k: nat, j: nat)
    requires j < |s|
    ensures var x := Swap(s, i, rate, draws, k)[j];
      || x == s[j]
      || (j > i && x == s[j - 1])
      || (j >= i && j + 1 < |s| && x == s[j + 1])
    decreases |s| - i
  {
    if i + 1 < |s| {
      if Hits(rate, draws, k) {
        SwapsAreLocal(Exchanged(s, i), i + 2, rate, draws, Drawn(rate, k), j);
      } else {
        SwapsAreLocal(s, i + 1, rate, draws, Drawn(rate, k), j);
      }
    }
  }

  /** The copies that were injected. */
  function Copies(points: seq<Telemetry>, rate: real, draws: Draws): (cs: seq<Telemetry>) {
    if points == [] then []
    else
      var n := |points| - 1;
      var front := Copies(points[..n], rate, draws);
      if Hits(rate, draws, Inject(points[..n], rate, draws).1) then front + [CopyOf(points[n])] else front
  }

  lemma {:induction false} CopiesAreCopies(points: seq<Telemetry>, rate: real, draws: Draws, d: Telemetry)
    requires d in Copies(points, rate, draws)
    ensures exists q :: q in points && d == CopyOf(q)
  {
    var n := |points| - 1;
    if d in Copies(points[..n], rate, draws) {
      CopiesAreCopies(points[..n], rate, draws, d);
      var q :| q in points[..n] && d == CopyOf(q);
      assert q in points;
    } else {
      assert points[n] in points;
    }
  }

  lemma AddBoth<T>(out: seq<T>, ps: seq<T>, cs: seq<T>, p: T, c: T)
    requires multiset(out) == multiset(ps) + multiset(cs)
    ensures multiset(out + [p]) == multiset(ps + [p]) + multiset(cs)
    ensures multiset(out + [p, c]) == multiset(ps + [p]) + multiset(cs + [c])
  {
    assert out + [p, c] == out + [p] + [c];
  }

  /** Injection adds copies of points and nothing else. */
  lemma {:induction false} InjectAddsCopies(points: seq<Telemetry>, rate: real, draws: Draws)
    ensures multiset(Inject(points, rate, draws).0) == multiset(points) + multiset(Copies(points, rate, draws))
  {
    if points != [] {
      var n := |points| - 1;
      InjectAddsCopies(points[..n], rate, draws);
      assert points == points[..n] + [points[n]];
      AddBoth(Inject(points[..n], rate, draws).0, points[..n], Copies(points[..n], rate, draws), points[n], CopyOf(points[n]));
    }
  }

  /** A faulted recording is a permutation of the clean one and copies of some of its points. */
  lemma FaultedIsPermutation(points: seq<Telemetry>, duplicateRate: real, outOfOrderRate: real, draws: Draws)
    ensures multiset(Faulted(points, duplicateRate, outOfOrderRate, draws))
         == multiset(points) + multiset(Copies(points, duplicateRate, draws))
    ensures forall d :: d in Copies(points, duplicateRate, draws) ==> exists q :: q in points && d == CopyOf(q)
  {
    InjectAddsCopies(points, duplicateRate, draws);
    var r := Inject(points, duplicateRate, draws);
    SwapsPermute(r.0, 0, outOfOrderRate, draws, r.1);
    forall d | d in Copies(points, duplicateRate, draws) ensures exists q :: q in points && d == CopyOf(q) {
      CopiesAreCopies(points, duplicateRate, draws, d);
    }
  }

  // ---------------------------------------------------------------- which draws do what

  /** How many of the first `i` draws are under a positive rate. */
  function HitsBefore(rate: real, draws: Draws, i: nat): nat {
    if i == 0 then 0 else HitsBefore(rate, draws, i - 1) + if rate > 0.0 && draws(i - 1) < rate then 1 else 0
  }

  /** Every point is kept, in order, and is followed by its copy exactly when its draw is under a positive rate. */
  lemma {:induction false} InjectMeaning(points: seq<Telemetry>, rate: real, draws: Draws, i: nat)
    requires i < |points|
    ensures var out, at := Inject(points, rate, draws).0, i + HitsBefore(rate, draws, i);
      && |out| == |points| + HitsBefore(rate, draws, |points|)
      && at < |out| && out[at] == points[i]
      && (rate > 0.0 && draws(i) < rate ==> at + 1 < |out| && out[at + 1] == points[i].(id := points[i].id + "-dup"))
  {
    InjectSize(points, rate, draws);
    var n := |points| - 1;
    InjectSize(points[..n], rate, draws);
    if i < n { InjectMeaning(points[..n], rate, draws, i); }
  }

  lemma {:induction false} InjectSize(points: seq<Telemetry>, rate: real, draws: Draws)
    ensures var r := Inject(points, rate, draws);
      |r.0| == |points| + HitsBefore(rate, draws, |points|) && r.1 == if rate > 0.0 then |points| else 0
  {
    if points != [] { InjectSize(points[..|points| - 1], rate, draws); }
  }

  lemma {:induction false} SwapKeepsDone<T>(s: seq<T>, i: nat, rate: real, draws: Draws, k: nat, j: nat)
    requires j < i && j < |s|
    ensures Swap(s, i, rate, draws, k)[j] == s[j]
    decreases |s| - i
  {
    if i + 1 < |s| {
      if Hits(rate, draws, k) {
        SwapKeepsDone(Exchanged(s, i), i + 2, rate, draws, Drawn(rate, k), j);
      } else {
        SwapKeepsDone(s, i + 1, rate, draws, Drawn(rate, k), j);
      }
    }
  }

  /** At each pair in turn: a draw under a positive rate exchanges it and the pass goes on after it, else the first of the
      two stays and the pass goes on with the second. */
  lemma SwapMeaning<T>(s: seq<T>, i: nat, rate: real, draws: Draws, k: nat)
    requires i + 1 < |s|
    ensures var r := Swap(s, i, rate, draws, k);
      if rate > 0.0 && draws(k) < rate then
        r[i] == s[i + 1] && r[i + 1] == s[i] && r == Swap(s[i := s[i + 1]][i + 1 := s[i]], i + 2, rate, draws, k + 1)
      else r[i] == s[i] && r == Swap(s, i + 1, rate, draws, if rate > 0.0 then k + 1 else k)
  {
    if rate > 0.0 && draws(k) < rate {
      SwapKeepsDone(Exchanged(s, i), i + 2, rate, draws, k + 1, i);
      SwapKeepsDone(Exchanged(s, i), i + 2, rate, draws, k + 1, i + 1);
    } else {
      SwapKeepsDone(s, i + 1, rate, draws, if rate > 0.0 then k + 1 else k, i);
    }
  }
}
