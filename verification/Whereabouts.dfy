/** Fences follow arrivals, hot state follows event time: when the two agree on where a vehicle is. */
module Whereabouts {
  import opened Collections
  import opened Schemas
  import opened VehicleStates
  import opened StateStore
  import opened Pipeline
  import opened PipelineRuns
  import Polygon
  import GeoTracker

  /** Arrival `j` is an accepted point of the vehicle. */
  ghost predicate Accepts(env: Setup, xs: seq<Arrival>, j: nat, v: string)
    requires j < |xs|
  {
    xs[j].t.vehicleId == v && VerdictAt(env, xs, j).Accepted?
  }

  /** Arrival `i` is the last accepted point of the vehicle. */
  ghost predicate LastAccepted(env: Setup, xs: seq<Arrival>, i: nat, v: string) {
    i < |xs| && Accepts(env, xs, i, v) && forall j :: i < j < |xs| ==> !Accepts(env, xs, j, v)
  }

  /** Anything but an accepted point of the vehicle leaves its view alone. */
  lemma ViewHolds(env: Setup, c: Core, x: Arrival, v: string)
    requires x.t.vehicleId != v || !Ingest(env, c, x).1.Accepted?
    ensures ViewOf(Ingest(env, c, x).0, v) == ViewOf(c, v)
  {
    IngestOutline(env, c, x);
    if x.t.vehicleId != v { OtherVehicle(env, c, x, v, DedupKey(x.t) + "x"); }
  }

  ghost function ViewAt(env: Setup, xs: seq<Arrival>, n: nat, v: string): View
    requires n <= |xs|
  {
    ViewOf(CoreAfter(env, xs[..n]), v)
  }

  lemma ViewNext(env: Setup, xs: seq<Arrival>, n: nat, v: string, view: View)
    requires n < |xs| && !Accepts(env, xs, n, v) && ViewAt(env, xs, n, v) == view
    ensures ViewAt(env, xs, n + 1, v) == view
  {
    CoreNext(env, xs, n);
    ViewHolds(env, CoreAfter(env, xs[..n]), xs[n], v);
  }

  lemma {:induction false} ViewStays(env: Setup, xs: seq<Arrival>, v: string, i: nat, n: nat, view: View)
    requires LastAccepted(env, xs, i, v) && i < n <= |xs| && ViewAt(env, xs, n, v) == view
    ensures ViewAt(env, xs, |xs|, v) == view
    decreases |xs| - n
  {
    if n != |xs| {
      NotAccepted(env, xs, v, i, n);
      ViewNext(env, xs, n, v, view);
      ViewStays(env, xs, v, i, n + 1, view);
    }
  }

  lemma ViewSinceLast(env: Setup, xs: seq<Arrival>, v: string, i: nat)
    requires LastAccepted(env, xs, i, v)
    ensures ViewAt(env, xs, |xs|, v) == ViewAt(env, xs, i + 1, v)
  {
    ViewStays(env, xs, v, i, i + 1, ViewAt(env, xs, i + 1, v));
  }

  lemma NotAccepted(env: Setup, xs: seq<Arrival>, v: string, i: nat, n: nat)
    requires LastAccepted(env, xs, i, v) && i < n < |xs|
    ensures !Accepts(env, xs, n, v)
  {
  }

  /** Where hot state shows a vehicle. */
  function Shown(s: VehicleState): Polygon.Point {
    Polygon.Point(s.lat, s.lng)
  }

  lemma ViewOfAccepted(env: Setup, c: Core, x: Arrival)
    requires Ingest(env, c, x).1.Accepted?
    ensures var c', prev := Ingest(env, c, x).0, StateOf(c.states, x.t.vehicleId);
      && Shown(StateOf(c'.states, x.t.vehicleId)) == (if Late(prev, x.t) then Shown(prev) else GeoTracker.PositionOf(x.t))
      && c'.members == Fenced(x.policy.fences, c.members, x.t).0
  {
    IngestOutline(env, c, x);
  }

  /** After any stream a vehicle is a member of a fence exactly when the fence contains the position of its last accepted
      point, late or not; hot state shows that position if the point was on time, and the one before it otherwise. */
  lemma MembershipFollowsArrival(env: Setup, xs: seq<Arrival>, v: string, i: nat, fences: seq<Polygon.Geofence>)
    requires LastAccepted(env, xs, i, v)
    requires xs[i].policy.fences == Some(fences) && GeoTracker.UniqueIds(fences)
    ensures var c, last := CoreAfter(env, xs), GeoTracker.PositionOf(xs[i].t);
      forall g :: g in fences ==> (GeoTracker.Member(GeoTracker.MemberOf(c.members, v), g.id) <==> Polygon.Inside(g.polygon, last))
    ensures var prev := StateOf(CoreAfter(env, xs[..i]).states, v);
      Shown(StateOf(CoreAfter(env, xs).states, v)) == if Late(prev, xs[i].t) then Shown(prev) else GeoTracker.PositionOf(xs[i].t)
  {
    var before := CoreAfter(env, xs[..i]);
    WholePrefix(xs);
    ViewSinceLast(env, xs, v, i);
    CoreNext(env, xs, i);
    ViewOfAccepted(env, before, xs[i]);
    GeoTracker.EvaluateIsNaive(before.members, fences, xs[i].t);
    assert ViewOf(CoreAfter(env, xs), v).member == ViewOf(CoreAfter(env, xs[..i + 1]), v).member;
    assert ViewOf(CoreAfter(env, xs), v).state == ViewOf(CoreAfter(env, xs[..i + 1]), v).state;
  }

  /** So membership fits the shown position exactly when no fence separates it from the last accepted point, which always
      holds when that point was on time. */
  lemma MembershipFitsIff(env: Setup, xs: seq<Arrival>, v: string, i: nat, fences: seq<Polygon.Geofence>)
    requires LastAccepted(env, xs, i, v)
    requires xs[i].policy.fences == Some(fences) && GeoTracker.UniqueIds(fences)
    ensures var c := CoreAfter(env, xs);
      var shown, last := Shown(StateOf(c.states, v)), GeoTracker.PositionOf(xs[i].t);
      && ((forall g :: g in fences ==>
             (GeoTracker.Member(GeoTracker.MemberOf(c.members, v), g.id) <==> Polygon.Inside(g.polygon, shown)))
          <==> (forall g :: g in fences ==> (Polygon.Inside(g.polygon, last) <==> Polygon.Inside(g.polygon, shown))))
      && (!Late(StateOf(CoreAfter(env, xs[..i]).states, v), xs[i].t) ==> shown == last)
  {
    MembershipFollowsArrival(env, xs, v, i, fences);
  }
}
