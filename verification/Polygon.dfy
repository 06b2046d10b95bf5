/**
 Ray casting over the reals: containment, the bounding-box prefilter, and the
 geometry that ties them together.
 */
module Polygon {
  import opened Collections
  import opened Walks

  datatype Point = Point(lat: real, lng: real)
  datatype Geofence = Geofence(id: string, tenantId: string, name: string, polygon: seq<Point>)

  /** Do the two ends of an edge lie on different sides of the horizontal line through `p`? */
  predicate Straddles(a: Point, b: Point, p: Point) {
    (a.lat > p.lat) != (b.lat > p.lat)
  }

  /** Where an edge meets the horizontal line through `p`. */
  function CrossLng(a: Point, b: Point, p: Point): real
    requires Straddles(a, b, p)
  {
    (b.lng - a.lng) * (p.lat - a.lat) / (b.lat - a.lat) + a.lng
  }

  predicate Toggles(a: Point, b: Point, p: Point) {
    Straddles(a, b, p) && p.lng < CrossLng(a, b, p)
  }

  /** The crossing test for the ray that starts at `p`. */
  function Ray(p: Point): (Point, Point) -> bool {
    (a, b) => Toggles(a, b, p)
  }

  /** Even-odd rule: a point is inside when its ray crosses the boundary an odd number of times. */
  predicate Inside(polygon: seq<Point>, p: Point) {
    Odd(polygon, Ray(p))
  }

  /** The test in the loop of Contains, over the two ends of one edge. */
  method EdgeTest(vi: Point, vj: Point, p: Point) returns (crossed: bool)
    ensures crossed == Ray(p)(vi, vj)
  {
    crossed := (vi.lat > p.lat) != (vj.lat > p.lat)
               && p.lng < (vj.lng - vi.lng) * (p.lat - vi.lat) / (vj.lat - vi.lat) + vi.lng;
  }

  method Contains(g: Geofence, p: Point) returns (inside: bool)
    ensures inside == Inside(g.polygon, p)
  {
    inside := false;
    var n := |g.polygon|;
    var i, j := 0, n - 1;
    OddAll(g.polygon, Ray(p));
    while i < n
      invariant 0 <= i <= n
      invariant j == if i == 0 then n - 1 else i - 1
      invariant inside == OddUpTo(g.polygon, i, Ray(p))
    {
      var crossed := EdgeTest(g.polygon[i], g.polygon[j], p);
      OddStep(g.polygon, i, Ray(p));
      if crossed {
        inside := !inside;
      }
      j, i := i, i + 1;
    }
  }

  // ---------------------------------------------------------------- shape

  /** The crossing test does not depend on the direction of the edge. */
  lemma TogglesSymmetric(a: Point, b: Point, p: Point)
    ensures Toggles(a, b, p) == Toggles(b, a, p)
  {
    if Straddles(a, b, p) {
      var d, u := b.lat - a.lat, p.lat - a.lat;
      var r := u / d;
      assert r * d == u;
      assert (1.0 - r) * (-d) == u - d;
      Fraction(b.lng - a.lng, u, d, r);
      Fraction(a.lng - b.lng, u - d, -d, 1.0 - r);
      assert (a.lng - b.lng) * (1.0 - r) == (a.lng - b.lng) + (b.lng - a.lng) * r;
    }
  }

  lemma Fraction(x: real, u: real, d: real, r: real)
    requires d != 0.0 && r * d == u
    ensures x * u / d == x * r
  {
    assert x * u == (x * r) * d;
  }

  lemma RaySymmetric(p: Point)
    ensures Symmetric(Ray(p))
  {
    forall a, b ensures Ray(p)(a, b) == Ray(p)(b, a) {
      TogglesSymmetric(a, b, p);
    }
  }

  /** Reversing the vertex list changes nothing. */
  lemma InsideReversed(polygon: seq<Point>, p: Point)
    ensures Inside(Reversed(polygon), p) == Inside(polygon, p)
  {
    RaySymmetric(p);
    CycleReversed(polygon, Ray(p));
  }

  /** Starting the vertex list elsewhere changes nothing. */
  lemma InsideRotated(polygon: seq<Point>, k: nat, p: Point)
    requires k <= |polygon|
    ensures Inside(polygon[k..] + polygon[..k], p) == Inside(polygon, p)
  {
    CycleRotated(polygon, k, Ray(p));
  }

  /** Cutting along a chord: a point is in the whole exactly when it is in one part but not both. */
  lemma InsideChord(polygon: seq<Point>, a: nat, b: nat, p: Point)
    requires a <= b < |polygon|
    ensures Inside(polygon, p)
         == (Inside(polygon[a..b + 1], p) != Inside(polygon[b..] + polygon[..a + 1], p))
  {
    RaySymmetric(p);
    CycleChord(polygon, a, b, Ray(p));
  }

  // ---------------------------------------------------------------- the bounding box

  /** Is `p` in the box of the polygon? The scan of the box starts from (90, -90, 180, -180),
      so those values count as vertices on their own side. */
  ghost predicate InBox(polygon: seq<Point>, p: Point) {
    && (p.lat >= 90.0 || exists v :: v in polygon && p.lat >= v.lat)
    && (p.lat <= -90.0 || exists v :: v in polygon && p.lat <= v.lat)
    && (p.lng >= 180.0 || exists v :: v in polygon && p.lng >= v.lng)
    && (p.lng <= -180.0 || exists v :: v in polygon && p.lng <= v.lng)
  }

  /** For a polygon and a point on the map: the point is out of the box exactly when all vertices are above it, below it,
      to its right or to its left. */
  lemma BoxMeaning(polygon: seq<Point>, p: Point)
    requires polygon != [] && -90.0 < p.lat < 90.0 && -180.0 < p.lng < 180.0
    ensures !InBox(polygon, p) <==>
      || (forall v :: v in polygon ==> v.lat > p.lat) || (forall v :: v in polygon ==> v.lat < p.lat)
      || (forall v :: v in polygon ==> v.lng > p.lng) || (forall v :: v in polygon ==> v.lng < p.lng)
  {
  }

  /** The fences whose box holds `p`, in list order. */
  ghost function Candidates(fences: seq<Geofence>, p: Point): (out: seq<Geofence>) {
    if fences == [] then []
    else
      var n := |fences| - 1;
      Candidates(fences[..n], p) + if InBox(fences[n].polygon, p) then [fences[n]] else []
  }

  method CandidateFilter(fences: seq<Geofence>, p: Point) returns (out: seq<Geofence>)
    ensures out == Candidates(fences, p)
  {
    out := [];
    for k := 0 to |fences|
      invariant out == Candidates(fences[..k], p)
    {
      var g := fences[k];
      var hit := BoxHit(g.polygon, p);
      NextPrefix(fences, k);
      if hit {
        out := out + [g];
      }
    }
    WholePrefix(fences);
  }

  /** The inner scan of CandidateFilter for one polygon. */
  method BoxHit(polygon: seq<Point>, p: Point) returns (hit: bool)
    ensures hit == InBox(polygon, p)
  {
    var minLat, maxLat, minLng, maxLng := 90.0, -90.0, 180.0, -180.0;
    for i := 0 to |polygon|
      invariant minLat <= 90.0 && forall v :: v in polygon[..i] ==> minLat <= v.lat
      invariant minLat == 90.0 || exists v :: v in polygon[..i] && minLat == v.lat
      invariant maxLat >= -90.0 && forall v :: v in polygon[..i] ==> maxLat >= v.lat
      invariant maxLat == -90.0 || exists v :: v in polygon[..i] && maxLat == v.lat
      invariant minLng <= 180.0 && forall v :: v in polygon[..i] ==> minLng <= v.lng
      invariant minLng == 180.0 || exists v :: v in polygon[..i] && minLng == v.lng
      invariant maxLng >= -180.0 && forall v :: v in polygon[..i] ==> maxLng >= v.lng
      invariant maxLng == -180.0 || exists v :: v in polygon[..i] && maxLng == v.lng
    {
      var v := polygon[i];
      assert polygon[..i + 1] == polygon[..i] + [v];
      if v.lat < minLat { minLat := v.lat; }
      if v.lat > maxLat { maxLat := v.lat; }
      if v.lng < minLng { minLng := v.lng; }
      if v.lng > maxLng { maxLng := v.lng; }
    }
    WholePrefix(polygon);
    hit := p.lat >= minLat && p.lat <= maxLat && p.lng >= minLng && p.lng <= maxLng;
  }

  lemma Interpolate(x: real, y: real, r: real)
    requires 0.0 <= r <= 1.0 && x <= y
    ensures x <= x + (y - x) * r <= y
    ensures x <= y + (x - y) * r <= y
  {
    var d := y - x;
    assert d * r >= 0.0 && d * (1.0 - r) >= 0.0;
    assert d * (1.0 - r) == d - d * r;
    assert (x - y) * r == -(d * r);
  }

  /** An edge meets the line through `p` between its two ends. */
  lemma CrossBetween(a: Point, b: Point, p: Point)
    requires Straddles(a, b, p)
    ensures a.lng <= CrossLng(a, b, p) <= b.lng || b.lng <= CrossLng(a, b, p) <= a.lng
  {
    var d, u := b.lat - a.lat, p.lat - a.lat;
    var r := u / d;
    assert r * d == u;
    assert 0.0 <= r <= 1.0;
    Fraction(b.lng - a.lng, u, d, r);
    if a.lng <= b.lng {
      Interpolate(a.lng, b.lng, r);
    } else {
      Interpolate(b.lng, a.lng, r);
    }
  }

  /** The prefilter never drops a fence that contains the point: above, below and right of the box no
      edge toggles; left of the box every straddling edge does, and a cycle has an even number of them. */
  lemma PrefilterSound(polygon: seq<Point>, p: Point)
    requires Inside(polygon, p)
    ensures InBox(polygon, p)
  {
    if !InBox(polygon, p) {
      forall a, b | a in polygon && b in polygon && Straddles(a, b, p)
        ensures a.lng <= CrossLng(a, b, p) <= b.lng || b.lng <= CrossLng(a, b, p) <= a.lng
      {
        CrossBetween(a, b, p);
      }
      if forall v :: v in polygon ==> p.lng < v.lng {
        CycleIsEven(polygon, Ray(p), (v: Point) => v.lat > p.lat);
      } else {
        CountNone(polygon, |polygon|, Ray(p));
      }
      assert false;
    }
  }

  /** A square holds its centre. */
  lemma SquareHoldsCentre(square: seq<Point>, p: Point)
    requires square == [Point(0.0, 0.0), Point(0.0, 2.0), Point(2.0, 2.0), Point(2.0, 0.0)]
    requires p == Point(1.0, 1.0)
    ensures Inside(square, p)
  {
    OddOfFour(square, Ray(p));
    SideOfSquare(square[0], square[3], p);
    SideOfSquare(square[2], square[1], p);
    SideOfSquare(square[1], square[0], p);
    SideOfSquare(square[3], square[2], p);
  }

  lemma SideOfSquare(a: Point, b: Point, p: Point)
    requires a.lng == b.lng || a.lat == b.lat
    ensures Ray(p)(a, b) == (Straddles(a, b, p) && p.lng < a.lng)
  {
    if Straddles(a, b, p) { CrossBetween(a, b, p); }
  }
}
