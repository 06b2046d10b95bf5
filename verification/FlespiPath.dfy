/** Dotted paths: splitting, joining, and looking a number up in nested and flat documents. */
module FlespiPath {
  import opened Collections
  import opened Schemas

  datatype Value = Float(f: real) | Int(i: int) | Doc(fields: map<string, Value>) | Other

  function AsNum(v: Value): (n: Option<real>) {
    match v
    case Float(f) => Some(f)
    case Int(i) => Some(i as real)
    case _ => None
  }

  /** Numbers of either kind count as their value, and nothing else counts. */
  lemma NumbersOnly(v: Value, r: real)
    ensures AsNum(v) == Some(r) <==> v == Float(r) || (v.Int? && v.i as real == r)
  {
  }

  // ---------------------------------------------------------------- split and join

  function Split(p: string): (ks: seq<string>)
    ensures ks != []
  {
    if p == "" then [""]
    else
      var n := |p| - 1;
      var ks := Split(p[..n]);
      if p[n] == '.' then ks + [""]
      else ks[..|ks| - 1] + [ks[|ks| - 1] + [p[n]]]
  }

  function Join(ks: seq<string>): (p: string) {
    if ks == [] then ""
    else if |ks| == 1 then ks[0]
    else Join(ks[..|ks| - 1]) + "." + ks[|ks| - 1]
  }

  predicate DotFree(k: string) { '.' !in k }

  method SplitPath(p: string) returns (out: seq<string>)
    ensures out == Split(p)
  {
    out := [];
    var start := 0;
    for i := 0 to |p|
      invariant 0 <= start <= i
      invariant Split(p[..i]) == out + [p[start..i]]
    {
      NextPrefix(p, i);
      if p[i] == '.' {
        out := out + [p[start..i]];
        start := i + 1;
        assert p[start..i + 1] == "";
      } else {
        assert p[start..i + 1] == p[start..i] + [p[i]];
        assert (out + [p[start..i]])[..|out|] == out;
      }
    }
    assert p[..|p|] == p && p[start..] == p[start..|p|];
    out := out + [p[start..]];
  }

  method JoinKeys(keys: seq<string>) returns (out: string)
    ensures out == Join(keys)
  {
    out := "";
    for i := 0 to |keys|
      invariant out == Join(keys[..i])
    {
      NextPrefix(keys, i);
      if i > 0 {
        out := out + ".";
      }
      out := out + keys[i];
    }
    WholePrefix(keys);
  }

  /** Joining what was split gives the path back, for every string; the keys hold no dots. */
  lemma {:induction false} JoinSplit(p: string)
    ensures Join(Split(p)) == p
    ensures forall k :: k in Split(p) ==> DotFree(k)
  {
    if p != "" {
      var n := |p| - 1;
      JoinSplit(p[..n]);
      var ks := Split(p[..n]);
      var last := ks[|ks| - 1];
      assert p == p[..n] + [p[n]];
      if p[n] == '.' {
        assert (ks + [""])[..|ks|] == ks;
      } else {
        var ks' := ks[..|ks| - 1] + [last + [p[n]]];
        assert ks'[..|ks| - 1] == ks[..|ks| - 1];
        assert last in ks;
      }
    }
  }

  lemma {:induction false} SplitKey(k: string)
    requires DotFree(k)
    ensures Split(k) == [k]
  {
    if k != "" {
      var n := |k| - 1;
      assert k[n] in k && k == k[..n] + [k[n]];
      SplitKey(k[..n]);
    }
  }

  lemma {:induction false} SplitAtDot(p: string, k: string)
    requires DotFree(k)
    ensures Split(p + "." + k) == Split(p) + [k]
  {
    var whole := p + "." + k;
    if k == "" {
      assert whole[..|whole| - 1] == p;
    } else {
      var n := |k| - 1;
      assert k[n] in k && k == k[..n] + [k[n]];
      SplitAtDot(p, k[..n]);
      assert whole[..|whole| - 1] == p + "." + k[..n];
      assert (Split(p) + [k[..n]])[..|Split(p)|] == Split(p);
    }
  }

  /** Splitting what was joined gives the keys back, for every non-empty list of dot-free keys. */
  lemma {:induction false} SplitJoin(ks: seq<string>)
    requires ks != [] && forall k :: k in ks ==> DotFree(k)
    ensures Split(Join(ks)) == ks
  {
    var n := |ks| - 1;
    assert ks[n] in ks && ks == ks[..n] + [ks[n]];
    if n == 0 {
      SplitKey(ks[0]);
    } else {
      SplitJoin(ks[..n]);
      SplitAtDot(Join(ks[..n]), ks[n]);
    }
  }

  // ---------------------------------------------------------------- lookup

  /** The walk of the source from level `i` on. */
  function Walk(m: map<string, Value>, keys: seq<string>, i: nat): (n: Option<real>)
    decreases |keys| - i
  {
    if i >= |keys| then None
    else
      var flat := Join(keys[i..]);
      if flat in m then AsNum(m[flat])
      else if keys[i] !in m then None
      else if i == |keys| - 1 then AsNum(m[keys[i]])
      else if !m[keys[i]].Doc? then None
      else Walk(m[keys[i]].fields, keys, i + 1)
  }

  function NumAt(doc: map<string, Value>, path: string): (n: Option<real>) {
    Walk(doc, Split(path), 0)
  }

  /** The document reached from the root by following the first `j` keys. */
  function Descend(doc: map<string, Value>, keys: seq<string>, j: nat): (m: Option<map<string, Value>>)
    requires j <= |keys|
  {
    if j == 0 then Some(doc)
    else
      match Descend(doc, keys, j - 1)
      case None => None
      case Some(m) => if keys[j - 1] in m && m[keys[j - 1]].Doc? then Some(m[keys[j - 1]].fields) else None
  }

  /** At level `j` the rest of the path is there as one flat key. */
  predicate FoundAt(doc: map<string, Value>, keys: seq<string>, j: nat)
    requires j < |keys|
  {
    Descend(doc, keys, j).Some? && Join(keys[j..]) in Descend(doc, keys, j).value
  }

  /** `n` is what the shallowest level from `i` on has to say. */
  ghost predicate SaysShallowest(doc: map<string, Value>, keys: seq<string>, i: nat, n: Option<real>) {
    && ((forall j :: i <= j < |keys| ==> !FoundAt(doc, keys, j)) ==> n == None)
    && (forall j :: i <= j < |keys| && FoundAt(doc, keys, j) && (forall k :: i <= k < j ==> !FoundAt(doc, keys, k)) ==>
          n == AsNum(Descend(doc, keys, j).value[Join(keys[j..])]))
  }

  lemma {:induction false} WalkFrom(doc: map<string, Value>, keys: seq<string>, i: nat)
    requires i < |keys| && Descend(doc, keys, i).Some?
    ensures SaysShallowest(doc, keys, i, Walk(Descend(doc, keys, i).value, keys, i))
    decreases |keys| - i
  {
    var m := Descend(doc, keys, i).value;
    if !FoundAt(doc, keys, i) {
      if i == |keys| - 1 {
        assert keys[i..] == [keys[i]];
      } else if Descend(doc, keys, i + 1).Some? {
        WalkFrom(doc, keys, i + 1);
      } else {
        StuckBelow(doc, keys, i + 1);
      }
    }
  }

  lemma {:induction false} StuckBelow(doc: map<string, Value>, keys: seq<string>, i: nat)
    requires i <= |keys| && Descend(doc, keys, i).None?
    ensures forall j :: i <= j < |keys| ==> !FoundAt(doc, keys, j)
    decreases |keys| - i
  {
    if i < |keys| { StuckBelow(doc, keys, i + 1); }
  }

  /** The lookup gives the number at the shallowest level at which the flat rest of the path is present, and nothing
      when there is no such level. */
  lemma NumAtShallowest(doc: map<string, Value>, path: string)
    ensures SaysShallowest(doc, Split(path), 0, NumAt(doc, path))
  {
    var keys := Split(path);
    assert Descend(doc, keys, 0) == Some(doc);
    WalkFrom(doc, keys, 0);
  }

  /** A document that nests the first `j` keys and keeps the rest flat; `around[i]` are the other fields at level `i`. */
  function Shape(keys: seq<string>, j: nat, v: Value, around: seq<map<string, Value>>): (doc: map<string, Value>)
    requires j < |keys| && j < |around|
    decreases j
  {
    if j == 0 then around[0][Join(keys) := v] else around[0][keys[0] := Doc(Shape(keys[1..], j - 1, v, around[1..]))]
  }

  lemma {:induction false} JoinHasDot(ks: seq<string>)
    requires |ks| >= 2
    ensures !DotFree(Join(ks))
  {
    var n := |ks| - 1;
    var s := Join(ks[..n]) + "." + ks[n];
    assert s[|Join(ks[..n])|] == '.';
  }

  /** No level above `j` has the rest of the path as a flat key. */
  predicate NothingShallower(keys: seq<string>, j: nat, around: seq<map<string, Value>>)
    requires j < |keys| && j < |around|
  {
    forall i :: 0 <= i < j ==> Join(keys[i..]) !in around[i]
  }

  lemma {:induction false} WalkShape(keys: seq<string>, i: nat, j: nat, v: Value, around: seq<map<string, Value>>)
    requires i <= j < |keys| && j < |around| && (forall k :: k in keys ==> DotFree(k)) && NothingShallower(keys, j, around)
    ensures Walk(Shape(keys[i..], j - i, v, around[i..]), keys, i) == AsNum(v)
    decreases j - i
  {
    if i < j {
      JoinHasDot(keys[i..]);
      assert keys[i..][1..] == keys[i + 1..] && around[i..][1..] == around[i + 1..];
      assert keys[i..][0] in keys;
      WalkShape(keys, i + 1, j, v, around);
    }
  }

  /** Flat, nested and mixed shapes of the same document give the same value, whatever other fields surround it at each
      level, unless a shallower level has the rest of the path as a flat key. */
  lemma ShapesAgree(keys: seq<string>, j: nat, v: Value, around: seq<map<string, Value>>)
    requires j < |keys| && j < |around| && (forall k :: k in keys ==> DotFree(k)) && NothingShallower(keys, j, around)
    ensures NumAt(Shape(keys, j, v, around), Join(keys)) == AsNum(v)
  {
    SplitJoin(keys);
    WalkShape(keys, 0, j, v, around);
    assert keys[0..] == keys && around[0..] == around;
  }

  /** A dotted key above a nested document is not a shape the lookup follows. */
  lemma DottedParentIsNotFound(x: real)
    ensures NumAt(map["a.b" := Doc(map["c" := Float(x)])], "a.b.c") == None
  {
    var keys, doc := ["a", "b", "c"], map["a.b" := Doc(map["c" := Float(x)])];
    ThreeKeys();
    SplitJoin(keys);
    assert keys[0..] == keys;
    assert Walk(doc, keys, 0) == None;
  }

  lemma ThreeKeys()
    ensures Join(["a", "b", "c"]) == "a.b.c"
  {
    assert ["a", "b", "c"][..2] == ["a", "b"] && ["a", "b"][..1] == ["a"];
    assert Join(["a", "b"]) == Join(["a"]) + "." + "b" == "a.b";
    assert Join(["a", "b", "c"]) == "a.b" + "." + "c";
  }
}
