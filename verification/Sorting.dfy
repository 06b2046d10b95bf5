/**
 Insertion sort over any strict weak order, as a function and in place, and the
 facts that make a sorted list canonical.
 */
module Sorting {
  import opened Collections

  ghost predicate WeakOrder<T(!new)>(less: (T, T) -> bool) {
    && (forall a, b :: less(a, b) ==> !less(b, a))
    && (forall a, b, c :: !less(a, b) && !less(b, c) ==> !less(a, c))
  }

  ghost predicate Ordered<T>(s: seq<T>, less: (T, T) -> bool) {
    forall i, j :: 0 <= i < j < |s| ==> !less(s[j], s[i])
  }

  /** Move `x` left past everything it is less than. */
  function Insert<T>(s: seq<T>, x: T, less: (T, T) -> bool): (r: seq<T>)
    ensures |r| == |s| + 1
  {
    if s == [] || !less(x, s[|s| - 1]) then s + [x]
    else Insert(s[..|s| - 1], x, less) + [s[|s| - 1]]
  }

  function Sort<T>(s: seq<T>, less: (T, T) -> bool): (r: seq<T>)
    ensures |r| == |s|
  {
    if s == [] then [] else Insert(Sort(s[..|s| - 1], less), s[|s| - 1], less)
  }

  function Filter<T>(s: seq<T>, keep: T -> bool): (r: seq<T>) {
    if s == [] then []
    else Filter(s[..|s| - 1], keep) + if keep(s[|s| - 1]) then [s[|s| - 1]] else []
  }

  lemma FilterNext<T>(s: seq<T>, x: T, keep: T -> bool)
    ensures Filter(s + [x], keep) == if keep(x) then Filter(s, keep) + [x] else Filter(s, keep)
  {
    Prefixed(s, x);
    Unchanged(Filter(s, keep));
  }

  lemma {:induction false} FilterMembers<T>(s: seq<T>, keep: T -> bool)
    ensures forall x :: x in Filter(s, keep) ==> x in s && keep(x)
    ensures forall x :: x in s && keep(x) ==> x in Filter(s, keep)
  {
    if s != [] {
      FilterMembers(s[..|s| - 1], keep);
      SplitLast(s);
    }
  }

  lemma SplitLast<T>(s: seq<T>)
    requires s != []
    ensures s == s[..|s| - 1] + [s[|s| - 1]]
    ensures multiset(s) == multiset(s[..|s| - 1]) + multiset{s[|s| - 1]}
  {
    assert s == s[..|s| - 1] + [s[|s| - 1]];
  }

  lemma {:induction false} InsertMultiset<T>(s: seq<T>, x: T, less: (T, T) -> bool)
    ensures multiset(Insert(s, x, less)) == multiset(s) + multiset{x}
  {
    if s != [] && less(x, s[|s| - 1]) {
      InsertMultiset(s[..|s| - 1], x, less);
      SplitLast(s);
    }
  }

  lemma {:induction false} InsertOrdered<T(!new)>(s: seq<T>, x: T, less: (T, T) -> bool)
    requires WeakOrder(less) && Ordered(s, less)
    ensures Ordered(Insert(s, x, less), less)
  {
    if s == [] || !less(x, s[|s| - 1]) {
      forall i | 0 <= i < |s| ensures !less(x, s[i]) {
        assert i == |s| - 1 || !less(s[|s| - 1], s[i]);
      }
    } else {
      var n := |s| - 1;
      var r := Insert(s[..n], x, less);
      InsertOrdered(s[..n], x, less);
      InsertMultiset(s[..n], x, less);
      forall i | 0 <= i < |r| ensures !less(s[n], r[i]) {
        assert r[i] in multiset(r);
        assert r[i] == x || r[i] in s[..n];
      }
    }
  }

  /** Insertion keeps ties in order: among elements of one tie, the inserted one comes last. */
  lemma {:induction false} InsertStable<T(!new)>(s: seq<T>, x: T, less: (T, T) -> bool, tie: T -> bool)
    requires forall a, b :: tie(a) && tie(b) ==> !less(a, b)
    ensures Filter(Insert(s, x, less), tie) == Filter(s + [x], tie)
  {
    if s != [] && less(x, s[|s| - 1]) {
      var n := |s| - 1;
      InsertStable(s[..n], x, less, tie);
      FilterNext(s[..n], x, tie);
      FilterNext(s, x, tie);
      FilterNext(Insert(s[..n], x, less), s[n], tie);
    }
  }

  /** The sort is a stable sort: ordered, a permutation, and ties in their original order. */
  lemma {:induction false} SortIsStable<T(!new)>(s: seq<T>, less: (T, T) -> bool, tie: T -> bool)
    requires WeakOrder(less)
    requires forall a, b :: tie(a) && tie(b) ==> !less(a, b)
    ensures Ordered(Sort(s, less), less)
    ensures multiset(Sort(s, less)) == multiset(s)
    ensures Filter(Sort(s, less), tie) == Filter(s, tie)
  {
    if s != [] {
      var n := |s| - 1;
      SortIsStable(s[..n], less, tie);
      var front := Sort(s[..n], less);
      InsertOrdered(front, s[n], less);
      InsertMultiset(front, s[n], less);
      InsertStable(front, s[n], less, tie);
      FilterNext(front, s[n], tie);
      SplitLast(s);
    }
  }

  lemma SortPermutes<T(!new)>(s: seq<T>, less: (T, T) -> bool)
    requires WeakOrder(less)
    ensures Ordered(Sort(s, less), less)
    ensures multiset(Sort(s, less)) == multiset(s)
    ensures forall x :: x in Sort(s, less) <==> x in s
  {
    SortIsStable(s, less, (x: T) => false);
    forall x ensures x in Sort(s, less) <==> x in s {
      assert x in Sort(s, less) <==> x in multiset(Sort(s, less));
      assert x in s <==> x in multiset(s);
    }
  }

  lemma SortPair<T>(a: T, b: T, less: (T, T) -> bool)
    ensures Sort([a, b], less) == if less(b, a) then [b, a] else [a, b]
  {
    assert [a, b][..1] == [a] && [a][..0] == [];
    assert Sort([a], less) == Insert(Sort([], less), a, less) == [a];
    assert Insert([], b, less) == [b];
    assert Sort([a, b], less) == Insert([a], b, less);
  }

  lemma {:induction false} SortOfOrdered<T>(s: seq<T>, less: (T, T) -> bool)
    requires Ordered(s, less)
    ensures Sort(s, less) == s
  {
    if s != [] {
      SortOfOrdered(s[..|s| - 1], less);
      SplitLast(s);
    }
  }

  ghost predicate OnlyEqualTie<T>(a: seq<T>, less: (T, T) -> bool) {
    forall x, y :: x in a && y in a && x != y ==> less(x, y) || less(y, x)
  }

  lemma SameLast<T>(a: seq<T>, b: seq<T>, less: (T, T) -> bool)
    requires a != [] && b != [] && multiset(a) == multiset(b)
    requires Ordered(a, less) && Ordered(b, less) && OnlyEqualTie(a, less)
    ensures a[|a| - 1] == b[|b| - 1]
  {
    var x, y := a[|a| - 1], b[|b| - 1];
    assert x in multiset(b) && y in multiset(a);
    var i :| 0 <= i < |a| && a[i] == y;
    var j :| 0 <= j < |b| && b[j] == x;
    assert x in a && y in a;
    assert x != y ==> !less(x, y) && !less(y, x);
  }

  lemma DropLast<T(!new)>(a: seq<T>, b: seq<T>, less: (T, T) -> bool)
    requires a != [] && b != [] && multiset(a) == multiset(b) && a[|a| - 1] == b[|b| - 1]
    requires Ordered(a, less) && Ordered(b, less) && OnlyEqualTie(a, less)
    ensures multiset(a[..|a| - 1]) == multiset(b[..|b| - 1])
    ensures Ordered(a[..|a| - 1], less) && Ordered(b[..|b| - 1], less) && OnlyEqualTie(a[..|a| - 1], less)
  {
    SplitLast(a);
    SplitLast(b);
    var front, back := a[..|a| - 1], b[..|b| - 1];
    Cancel(multiset(front), multiset(back), multiset{a[|a| - 1]});
    assert forall x :: x in front ==> x in a;
  }

  /** Where only equal elements tie, an ordered permutation is unique. */
  lemma {:induction false} OrderedUnique<T(!new)>(a: seq<T>, b: seq<T>, less: (T, T) -> bool)
    requires multiset(a) == multiset(b) && Ordered(a, less) && Ordered(b, less) && OnlyEqualTie(a, less)
    ensures a == b
  {
    if a == [] {
      assert |b| == |multiset(b)| == |multiset(a)| == 0;
    } else {
      assert a[0] in multiset(b);
      SameLast(a, b, less);
      DropLast(a, b, less);
      OrderedUnique(a[..|a| - 1], b[..|b| - 1], less);
      SplitLast(a);
      SplitLast(b);
    }
  }

  lemma {:induction false} OrderedFilter<T>(s: seq<T>, less: (T, T) -> bool, keep: T -> bool)
    requires Ordered(s, less)
    ensures Ordered(Filter(s, keep), less)
  {
    if s != [] {
      var n := |s| - 1;
      SplitLast(s);
      OrderedFilter(s[..n], less, keep);
      FilterMembers(s[..n], keep);
      var f := Filter(s[..n], keep);
      forall k | 0 <= k < |f| ensures !less(s[n], f[k]) {
        assert f[k] in f;
        assert f[k] in s[..n];
        var i :| 0 <= i < |s[..n]| && s[..n][i] == f[k];
        assert s[i] == f[k];
      }
    }
  }

  // ---------------------------------------------------------------- the last maximum

  /** The last element that nothing before it exceeds and nothing after it reaches. */
  function Newest<T>(s: seq<T>, less: (T, T) -> bool): (t: T)
    requires s != []
  {
    var n := |s| - 1;
    if n == 0 || !less(s[n], Newest(s[..n], less)) then s[n] else Newest(s[..n], less)
  }

  lemma {:induction false} NewestIsLastMaximum<T(!new)>(s: seq<T>, less: (T, T) -> bool) returns (k: nat)
    requires s != [] && WeakOrder(less)
    ensures k < |s| && s[k] == Newest(s, less)
    ensures forall i :: 0 <= i < |s| ==> !less(s[k], s[i])
    ensures forall i :: k < i < |s| ==> less(s[i], s[k])
  {
    var n := |s| - 1;
    if n == 0 {
      k := 0;
    } else {
      var front := s[..n];
      k := NewestIsLastMaximum(front, less);
      assert forall i :: 0 <= i < n ==> s[i] == front[i];
      if !less(s[n], s[k]) {
        k := n;
      }
    }
  }

  lemma {:induction false} NewestOfOrdered<T>(s: seq<T>, less: (T, T) -> bool)
    requires s != [] && Ordered(s, less)
    ensures Newest(s, less) == s[|s| - 1]
  {
    if |s| > 1 {
      NewestOfOrdered(s[..|s| - 1], less);
    }
  }

  lemma {:induction false} NewestOfSort<T(!new)>(s: seq<T>, less: (T, T) -> bool)
    requires s != [] && WeakOrder(less)
    ensures Newest(Sort(s, less), less) == Newest(s, less)
  {
    var n := |s| - 1;
    var front := Sort(s[..n], less);
    SortPermutes(s[..n], less);
    InsertOrdered(front, s[n], less);
    NewestOfOrdered(Sort(s, less), less);
    if n > 0 {
      NewestOfSort(s[..n], less);
      NewestOfOrdered(front, less);
    }
  }

  // ---------------------------------------------------------------- in place

  lemma {:induction false} InsertSplit<T>(s: seq<T>, j: nat, x: T, less: (T, T) -> bool)
    requires j <= |s|
    requires forall k :: j <= k < |s| ==> less(x, s[k])
    ensures Insert(s, x, less) == Insert(s[..j], x, less) + s[j..]
  {
    if j < |s| {
      var n := |s| - 1;
      InsertSplit(s[..n], j, x, less);
      assert s[..n][..j] == s[..j] && s[j..] == s[..n][j..] + [s[n]];
    } else {
      assert s[..j] == s && s[j..] == [];
    }
  }

  /** The inner loop: element `i` moves left by adjacent swaps. */
  method SiftDown<T>(a: array<T>, i: nat, less: (T, T) -> bool)
    requires 1 <= i < a.Length
    modifies a
    ensures a[..i + 1] == Insert(old(a[..i]), old(a[i]), less)
    ensures a[i + 1..] == old(a[i + 1..])
  {
    ghost var s, x := a[..i], a[i];
    var j := i;
    while j > 0 && less(a[j], a[j - 1])
      invariant 0 <= j <= i
      invariant forall k :: 0 <= k < j ==> a[k] == s[k]
      invariant a[j] == x
      invariant forall k :: j < k <= i ==> a[k] == s[k - 1]
      invariant a[i + 1..] == old(a[i + 1..])
      invariant forall k :: j <= k < |s| ==> less(x, s[k])
    {
      a[j], a[j - 1] := a[j - 1], a[j];
      j := j - 1;
    }
    Reassembled(a[..i + 1], s, j, x);
    InsertedAt(s, j, x, less);
  }

  /** A list with `x` at `j` and the elements of `s` around it. */
  lemma Reassembled<T>(r: seq<T>, s: seq<T>, j: nat, x: T)
    requires |r| == |s| + 1 && j <= |s| && r[j] == x
    requires forall k :: 0 <= k < j ==> r[k] == s[k]
    requires forall k :: j < k <= |s| ==> r[k] == s[k - 1]
    ensures r == s[..j] + [x] + s[j..]
  {
  }

  lemma InsertedAt<T>(s: seq<T>, j: nat, x: T, less: (T, T) -> bool)
    requires j <= |s| && (forall k :: j <= k < |s| ==> less(x, s[k])) && (j > 0 ==> !less(x, s[j - 1]))
    ensures Insert(s, x, less) == s[..j] + [x] + s[j..]
  {
    InsertSplit(s, j, x, less);
    assert Insert(s[..j], x, less) == s[..j] + [x];
  }

  /** Insertion sort in place. */
  method InsertionSort<T>(a: array<T>, less: (T, T) -> bool)
    modifies a
    ensures a[..] == Sort(old(a[..]), less)
  {
    ghost var was := a[..];
    var n := a.Length;
    if n == 0 { return; }
    assert a[..1] == Sort(was[..1], less) by {
      assert was[..1][..0] == [];
      assert a[..1] == [was[0]];
    }
    var i := 1;
    while i < n
      invariant 1 <= i <= n
      invariant a[..i] == Sort(was[..i], less)
      invariant a[i..] == was[i..]
    {
      assert a[i] == was[i..][0];
      SiftDown(a, i, less);
      NextPrefix(was, i);
      assert a[i + 1..] == was[i..][1..];
      i := i + 1;
    }
    assert a[..n] == a[..] && was[..n] == was;
  }
}
