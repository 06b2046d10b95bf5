/** Results collected along a list, and what survives when the list is permuted. */
module Permutations {
  import opened Collections

  /** The results of `f` one after the other. */
  ghost function Collect<K, T>(keys: seq<K>, f: K -> seq<T>): (r: seq<T>) {
    if keys == [] then [] else Collect(keys[..|keys| - 1], f) + f(keys[|keys| - 1])
  }

  lemma {:induction false} CollectRemove<K, T>(keys: seq<K>, i: nat, f: K -> seq<T>)
    requires i < |keys|
    ensures multiset(Collect(keys, f)) == multiset(Collect(keys[..i] + keys[i + 1..], f)) + multiset(f(keys[i]))
  {
    var n := |keys| - 1;
    if i == n {
      assert keys[..i] + keys[i + 1..] == keys[..n];
    } else {
      var front, k := keys[..n], keys[n];
      CollectRemove(front, i, f);
      CollectNext(front[..i] + front[i + 1..], k, f);
      assert keys[..i] + keys[i + 1..] == front[..i] + front[i + 1..] + [k];
    }
  }

  lemma CollectNext<K, T>(keys: seq<K>, k: K, f: K -> seq<T>)
    ensures multiset(Collect(keys + [k], f)) == multiset(Collect(keys, f)) + multiset(f(k))
  {
    Prefixed(keys, k);
  }

  /** Permuting the keys permutes the collected results. */
  lemma {:induction false} CollectPermuted<K, T>(a: seq<K>, b: seq<K>, f: K -> seq<T>)
    requires multiset(a) == multiset(b)
    ensures multiset(Collect(a, f)) == multiset(Collect(b, f))
  {
    if a == [] {
      assert |b| == |multiset(b)| == |multiset(a)| == 0;
    } else {
      var n := |a| - 1;
      assert a[n] in multiset(b);
      var i :| 0 <= i < |b| && b[i] == a[n];
      Cut(a, n);
      Cut(b, i);
      Cancel(multiset(a[..n] + a[n + 1..]), multiset(b[..i] + b[i + 1..]), multiset{a[n]});
      assert a[..n] + a[n + 1..] == a[..n];
      CollectPermuted(a[..n], b[..i] + b[i + 1..], f);
      CollectRemove(b, i, f);
    }
  }

  lemma Cut<T>(a: seq<T>, i: nat)
    requires i < |a|
    ensures multiset(a) == multiset(a[..i] + a[i + 1..]) + multiset{a[i]}
  {
    assert a == a[..i] + [a[i]] + a[i + 1..];
  }
}
