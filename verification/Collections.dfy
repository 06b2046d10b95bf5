/** Small laws of sequences and maps that proofs cite by name. */
module Collections {
  lemma Joined<T>(a: seq<T>, b: seq<T>, c: seq<T>)
    ensures a + b + c == a + (b + c)
  {
  }

  lemma Unchanged<T>(a: seq<T>)
    ensures a + [] == a && [] + a == a
  {
  }

  lemma Prefixed<T>(a: seq<T>, x: T)
    ensures (a + [x])[..|a|] == a && (a + [x])[|a|] == x
  {
  }

  lemma AppendedAt<T>(a: seq<T>, x: T, i: nat)
    requires i <= |a|
    ensures (a + [x])[i] == if i < |a| then a[i] else x
  {
  }

  /** The next prefix is the prefix and the next element. */
  lemma NextPrefix<T>(a: seq<T>, n: nat)
    requires n < |a|
    ensures a[..n + 1] == a[..n] + [a[n]] && a[..n + 1][..n] == a[..n]
  {
  }

  lemma WholePrefix<T>(a: seq<T>)
    ensures a[..|a|] == a
  {
  }

  lemma Overwritten<K, V>(m: map<K, V>, k: K, v: V, w: V)
    ensures m[k := v][k := w] == m[k := w]
  {
  }

  lemma SameMembers<T>(a: seq<T>, b: seq<T>, x: T)
    requires multiset(a) == multiset(b)
    ensures x in a <==> x in b
  {
    assert x in a <==> x in multiset(a);
    assert x in b <==> x in multiset(b);
  }

  lemma Cancel<T>(a: multiset<T>, b: multiset<T>, x: multiset<T>)
    requires a + x == b + x
    ensures a == b
  {
    assert a == (a + x) - x && b == (b + x) - x;
  }

  lemma SeparatorAt<T>(p: seq<T>, sep: T, r: seq<T>)
    ensures var w := p + [sep] + r;
      w[|p|] == sep && w[..|p|] == p && w[|p| + 1..] == r
  {
  }

  /** The first separator marks where a head without separators ends. */
  lemma CutFirst<T>(p: seq<T>, r: seq<T>, q: seq<T>, s: seq<T>, sep: T)
    requires sep !in p && sep !in q && p + [sep] + r == q + [sep] + s
    ensures p == q && r == s
  {
    SeparatorAt(p, sep, r);
    SeparatorAt(q, sep, s);
    var w := p + [sep] + r;
    assert forall i :: 0 <= i < |p| ==> w[i] != sep;
    assert forall i :: 0 <= i < |q| ==> w[i] != sep;
    assert |p| == |q|;
  }

  /** The last separator marks where a tail without separators begins. */
  lemma CutLast<T>(p: seq<T>, r: seq<T>, q: seq<T>, s: seq<T>, sep: T)
    requires sep !in r && sep !in s && p + [sep] + r == q + [sep] + s
    ensures p == q && r == s
  {
    SeparatorAt(p, sep, r);
    SeparatorAt(q, sep, s);
    var w := p + [sep] + r;
    assert forall i :: |p| < i < |w| ==> w[i] == r[i - |p| - 1] != sep;
    assert forall i :: |q| < i < |w| ==> w[i] == s[i - |q| - 1] != sep;
    assert |p| == |q|;
  }
}
