/** What ray casting computes: the side test of triangles, and every polygon as a fan of triangles. */
module Triangles {
  import opened Walks
  import opened Polygon

  /** Twice the signed area of the triangle a, b, p: positive on one side of the line through a and b, negative on the
      other, zero on it. */
  function Side(a: Point, b: Point, p: Point): real {
    (b.lng - a.lng) * (p.lat - a.lat) - (b.lat - a.lat) * (p.lng - a.lng)
  }

  /** The crossing lies on the line through the two ends, at the latitude of `p`. */
  lemma CrossOnLine(a: Point, b: Point, p: Point)
    requires Straddles(a, b, p)
    ensures (CrossLng(a, b, p) - a.lng) * (b.lat - a.lat) == (b.lng - a.lng) * (p.lat - a.lat)
  {
    var d, u := b.lat - a.lat, p.lat - a.lat;
    var r := u / d;
    assert r * d == u;
    Fraction(b.lng - a.lng, u, d, r);
    assert ((b.lng - a.lng) * r) * d == (b.lng - a.lng) * (r * d);
  }

  lemma Commute(x: real, y: real)
    ensures x * y == y * x
  {
  }

  lemma SideOfCut(u: real, w: real, d: real, side: real)
    requires side == w * d - d * u
    ensures d > 0.0 ==> (u < w <==> side > 0.0)
    ensures d < 0.0 ==> (u < w <==> side < 0.0)
  {
    assert side == (w - u) * d;
    Sign(w - u, d);
    Sign(d, w - u);
  }

  /** The crossing test as a side test: an edge that goes up past `p` is crossed when `p` is on its positive side, one
      that goes down when `p` is on its negative side. */
  lemma ToggleIsSide(a: Point, b: Point, p: Point)
    ensures Toggles(a, b, p) <==>
      || (a.lat <= p.lat < b.lat && Side(a, b, p) > 0.0)
      || (b.lat <= p.lat < a.lat && Side(a, b, p) < 0.0)
  {
    if Straddles(a, b, p) {
      var d, u, w := b.lat - a.lat, p.lng - a.lng, CrossLng(a, b, p) - a.lng;
      CrossOnLine(a, b, p);
      Commute(u, d);
      SideOfCut(u, w, d, Side(a, b, p));
    }
  }

  /** The three sides weigh the corners so that they balance at `p`. */
  lemma SidesBalance(a: Point, b: Point, c: Point, p: Point)
    ensures Side(b, c, p) * (a.lat - p.lat) + Side(c, a, p) * (b.lat - p.lat) + Side(a, b, p) * (c.lat - p.lat) == 0.0
  {
    Balance(a.lng - p.lng, a.lat - p.lat, b.lng - p.lng, b.lat - p.lat, c.lng - p.lng, c.lat - p.lat);
    SideFromPoint(a, b, p);
    SideFromPoint(b, c, p);
    SideFromPoint(c, a, p);
  }

  /** A side, measured from the point. */
  lemma SideFromPoint(a: Point, b: Point, p: Point)
    ensures Side(a, b, p) == (a.lng - p.lng) * (b.lat - p.lat) - (a.lat - p.lat) * (b.lng - p.lng)
  {
    var a1, a2, b1, b2 := a.lng - p.lng, a.lat - p.lat, b.lng - p.lng, b.lat - p.lat;
    assert Side(a, b, p) == (b1 - a1) * (-a2) - (b2 - a2) * (-a1);
    assert (b1 - a1) * (-a2) == a1 * a2 - b1 * a2;
    assert (b2 - a2) * (-a1) == a2 * a1 - b2 * a1;
  }

  lemma Balance(a1: real, a2: real, b1: real, b2: real, c1: real, c2: real)
    ensures (b1 * c2 - b2 * c1) * a2 + (c1 * a2 - c2 * a1) * b2 + (a1 * b2 - a2 * b1) * c2 == 0.0
  {
    assert (b1 * c2 - b2 * c1) * a2 == a2 * b1 * c2 - a2 * b2 * c1;
    assert (c1 * a2 - c2 * a1) * b2 == a2 * b2 * c1 - a1 * b2 * c2;
    assert (a1 * b2 - a2 * b1) * c2 == a1 * b2 * c2 - a2 * b1 * c2;
  }

  predicate OffLines(a: Point, b: Point, c: Point, p: Point) {
    Side(a, b, p) != 0.0 && Side(b, c, p) != 0.0 && Side(c, a, p) != 0.0
  }

  /** The point is on the same side of all three edges. */
  predicate SameSide(a: Point, b: Point, c: Point, p: Point) {
    || (Side(a, b, p) > 0.0 && Side(b, c, p) > 0.0 && Side(c, a, p) > 0.0)
    || (Side(a, b, p) < 0.0 && Side(b, c, p) < 0.0 && Side(c, a, p) < 0.0)
  }

  lemma ThreeToggles(a: Point, b: Point, c: Point, p: Point)
    ensures Inside([a, b, c], p) == ((Toggles(a, b, p) != Toggles(b, c, p)) != Toggles(c, a, p))
  {
    var s := [a, b, c];
    OddAll(s, Ray(p));
    OddStep(s, 0, Ray(p));
    OddStep(s, 1, Ray(p));
    OddStep(s, 2, Ray(p));
    TogglesSymmetric(a, b, p);
    TogglesSymmetric(b, c, p);
    TogglesSymmetric(c, a, p);
  }

  /** The balance decides the far side: `x`, `y` and `z` are the heights of the corners over `p`. */
  lemma FarSide(ab: real, bc: real, ca: real, x: real, y: real, z: real)
    requires bc * x + ca * y + ab * z == 0.0 && ab != 0.0 && bc != 0.0 && ca != 0.0
    requires (x > 0.0 && y <= 0.0 && z <= 0.0) || (x <= 0.0 && y > 0.0 && z > 0.0)
    ensures (ab > 0.0 && ca > 0.0 ==> bc > 0.0) && (ab < 0.0 && ca < 0.0 ==> bc < 0.0)
  {
    Sign(bc, x);
    Sign(ca, y);
    Sign(ab, z);
  }

  lemma Sign(w: real, x: real)
    ensures w > 0.0 && x > 0.0 ==> w * x > 0.0
    ensures w < 0.0 && x > 0.0 ==> w * x < 0.0
    ensures w > 0.0 && x < 0.0 ==> w * x < 0.0
    ensures w < 0.0 && x < 0.0 ==> w * x > 0.0
    ensures x == 0.0 ==> w * x == 0.0
  {
    if w < 0.0 && x > 0.0 { assert (-w) * x > 0.0; }
    if w > 0.0 && x < 0.0 { assert w * (-x) > 0.0; }
    if w < 0.0 && x < 0.0 { assert (-w) * (-x) > 0.0; }
  }

  /** Corner `a` alone on its side of the horizontal line through `p`. */
  lemma OneCornerApart(a: Point, b: Point, c: Point, p: Point)
    requires OffLines(a, b, c, p) && (a.lat > p.lat) != (b.lat > p.lat) && (b.lat > p.lat) == (c.lat > p.lat)
    ensures ((Toggles(a, b, p) != Toggles(b, c, p)) != Toggles(c, a, p)) <==> SameSide(a, b, c, p)
  {
    ToggleIsSide(a, b, p);
    ToggleIsSide(b, c, p);
    ToggleIsSide(c, a, p);
    SidesBalance(a, b, c, p);
    FarSide(Side(a, b, p), Side(b, c, p), Side(c, a, p), a.lat - p.lat, b.lat - p.lat, c.lat - p.lat);
  }

  lemma OnlyFlat(ab: real, bc: real, ca: real, x: real, y: real, z: real)
    requires bc * x + ca * y + ab * z == 0.0
    requires (ab > 0.0 && bc > 0.0 && ca > 0.0) || (ab < 0.0 && bc < 0.0 && ca < 0.0)
    requires (x > 0.0 && y > 0.0 && z > 0.0) || (x <= 0.0 && y <= 0.0 && z <= 0.0)
    ensures x == 0.0 && y == 0.0 && z == 0.0
  {
    Sign(bc, x);
    Sign(ca, y);
    Sign(ab, z);
  }

  lemma FlatSide(a: Point, b: Point, p: Point)
    requires a.lat == p.lat && b.lat == p.lat
    ensures Side(a, b, p) == 0.0
  {
    assert p.lat - a.lat == 0.0 && b.lat - a.lat == 0.0;
  }

  /** All corners on one side of that line. */
  lemma NoCornerApart(a: Point, b: Point, c: Point, p: Point)
    requires OffLines(a, b, c, p) && (a.lat > p.lat) == (b.lat > p.lat) == (c.lat > p.lat)
    ensures !Toggles(a, b, p) && !Toggles(b, c, p) && !Toggles(c, a, p) && !SameSide(a, b, c, p)
  {
    ToggleIsSide(a, b, p);
    ToggleIsSide(b, c, p);
    ToggleIsSide(c, a, p);
    if SameSide(a, b, c, p) {
      SidesBalance(a, b, c, p);
      OnlyFlat(Side(a, b, p), Side(b, c, p), Side(c, a, p), a.lat - p.lat, b.lat - p.lat, c.lat - p.lat);
      FlatSide(a, b, p);
      assert false;
    }
  }

  /** Ray casting is the side test: off the lines of its edges, a point is in a triangle exactly when it is on the same
      side of all three. */
  lemma TriangleIsSideTest(a: Point, b: Point, c: Point, p: Point)
    requires OffLines(a, b, c, p)
    ensures Inside([a, b, c], p) <==> SameSide(a, b, c, p)
  {
    ThreeToggles(a, b, c, p);
    var x, y, z := a.lat > p.lat, b.lat > p.lat, c.lat > p.lat;
    if x == y && y == z {
      NoCornerApart(a, b, c, p);
    } else if y == z {
      OneCornerApart(a, b, c, p);
    } else if x == z {
      OneCornerApart(b, c, a, p);
    } else {
      OneCornerApart(c, a, b, p);
    }
  }

  // ---------------------------------------------------------------- fans

  /** How many triangles of the fan around the first corner, up to corner `n - 1`, pass the test. */
  ghost function Fan(s: seq<Point>, n: nat, p: Point): nat
    requires n <= |s|
  {
    if n < 3 then 0 else Fan(s, n - 1, p) + if SameSide(s[0], s[n - 2], s[n - 1], p) then 1 else 0
  }

  /** The point is on no edge line and no line from the first corner. */
  ghost predicate OffFan(s: seq<Point>, p: Point) {
    forall k :: 2 <= k < |s| ==> OffLines(s[0], s[k - 1], s[k], p)
  }

  lemma InsideTwo(s: seq<Point>, p: Point)
    requires |s| < 3
    ensures !Inside(s, p)
  {
    OddAll(s, Ray(p));
    if |s| > 0 { OddStep(s, 0, Ray(p)); }
    if |s| > 1 {
      OddStep(s, 1, Ray(p));
      TogglesSymmetric(s[0], s[1], p);
    } else if |s| == 1 {
      ToggleIsSide(s[0], s[0], p);
    }
  }

  /** Every polygon, crossing itself or not: a point is inside exactly when an odd number of the triangles of its fan
      have the point on the same side of all their edges. */
  lemma {:induction false} PolygonIsFan(s: seq<Point>, n: nat, p: Point)
    requires n <= |s| && OffFan(s, p)
    ensures Inside(s[..n], p) <==> Fan(s, n, p) % 2 == 1
  {
    if n < 3 {
      InsideTwo(s[..n], p);
    } else {
      PolygonIsFan(s, n - 1, p);
      CutEar(s, n, p);
      assert OffLines(s[0], s[n - 2], s[n - 1], p);
      TriangleIsSideTest(s[0], s[n - 2], s[n - 1], p);
      Flip(Fan(s, n - 1, p), SameSide(s[0], s[n - 2], s[n - 1], p));
    }
  }

  lemma Flip(k: nat, once: bool)
    ensures ((k + if once then 1 else 0) % 2 == 1) == ((k % 2 == 1) != once)
  {
  }

  /** The last corner of a polygon, cut off along the chord below it. */
  lemma CutEar(s: seq<Point>, n: nat, p: Point)
    requires 3 <= n <= |s|
    ensures Inside(s[..n], p) == (Inside(s[..n - 1], p) != Inside([s[0], s[n - 2], s[n - 1]], p))
  {
    var part := s[..n];
    InsideChord(part, 0, n - 2, p);
    assert part[0..n - 1] == s[..n - 1];
    assert part[n - 2..] + part[..1] == [s[n - 2], s[n - 1], s[0]];
    RotateTriangle(s[0], s[n - 2], s[n - 1], p);
  }

  lemma RotateTriangle(a: Point, b: Point, c: Point, p: Point)
    ensures Inside([b, c, a], p) == Inside([a, b, c], p)
  {
    ThreeToggles(a, b, c, p);
    ThreeToggles(b, c, a, p);
  }
}
