/** Rebuilding hot state from the durable log, and what it shares with the live state. */
module Rebuild {
  import opened Collections
  import opened Schemas
  import opened VehicleStates
  import opened StateStore
  import opened Sorting

  /** Event time decides; equal times tie. */
  function Earlier(): (Telemetry, Telemetry) -> bool {
    (a: Telemetry, b: Telemetry) => a.timestamp < b.timestamp
  }

  // ---------------------------------------------------------------- folding

  function ApplyAll(points: seq<Telemetry>): (s: VehicleState) {
    if points == [] then EMPTY
    else Apply(ApplyAll(points[..|points| - 1]), points[|points| - 1]).0
  }

  function Rebuilt(points: seq<Telemetry>): (s: VehicleState) {
    ApplyAll(Sort(points, Earlier()))
  }

  function OnVehicle(v: string): Telemetry -> bool {
    (t: Telemetry) => t.vehicleId == v
  }

  function OfVehicle(log: seq<Telemetry>, v: string): (mine: seq<Telemetry>) {
    Filter(log, OnVehicle(v))
  }

  function Vehicles(log: seq<Telemetry>): set<string> {
    set t | t in log :: t.vehicleId
  }

  /** The live fold of a log over a fresh store. */
  function Live(log: seq<Telemetry>): (m: States) {
    if log == [] then map[]
    else
      var m, t := Live(log[..|log| - 1]), log[|log| - 1];
      m[t.vehicleId := Apply(StateOf(m, t.vehicleId), t).0]
  }

  lemma {:induction false} OfVehicleMembers(log: seq<Telemetry>, v: string)
    ensures forall t :: t in OfVehicle(log, v) <==> t in log && t.vehicleId == v
    ensures v in Vehicles(log) <==> OfVehicle(log, v) != []
  {
    if log != [] {
      OfVehicleMembers(log[..|log| - 1], v);
      SplitLast(log);
    }
  }

  lemma {:induction false} LiveProjects(log: seq<Telemetry>, v: string)
    ensures StateOf(Live(log), v) == ApplyAll(OfVehicle(log, v))
    ensures v in Live(log) <==> OfVehicle(log, v) != []
  {
    if log != [] {
      var n := |log| - 1;
      LiveProjects(log[..n], v);
      var mine, t := OfVehicle(log[..n], v), log[n];
      if t.vehicleId == v {
        assert OfVehicle(log, v) == mine + [t];
        Prefixed(mine, t);
      } else {
        assert OfVehicle(log, v) == mine;
      }
    }
  }

  /** Group by vehicle, sort each group in place, fold it, and store the result. */
  method RebuildFrom(store: MemoryStore, log: seq<Telemetry>)
    modifies store
    ensures store.m.Keys == old(store.m).Keys + Vehicles(log)
    ensures forall v :: v in Vehicles(log) ==> store.m[v] == Rebuilt(OfVehicle(log, v))
    ensures forall v :: v in old(store.m) && v !in Vehicles(log) ==> store.m[v] == old(store.m)[v]
  {
    var byVehicle := GroupByVehicle(log);
    var todo := byVehicle.Keys;
    while todo != {}
      invariant todo <= byVehicle.Keys && RestoredSoFar(old(store.m), store.m, byVehicle, todo)
      decreases todo
    {
      var vid :| vid in todo;
      var cur := RebuildOne(byVehicle[vid]);
      RebuiltIdentity(log, vid);
      RestoredNext(old(store.m), store.m, byVehicle, todo, vid);
      store.Set(cur.(vehicleId := vid));
      todo := todo - {vid};
    }
  }

  /** The store while the vehicles of `todo` are still to be rebuilt. */
  ghost predicate RestoredSoFar(was: States, m: States, groups: map<string, seq<Telemetry>>, todo: set<string>) {
    && m.Keys == was.Keys + (groups.Keys - todo)
    && (forall v :: v in groups && v !in todo ==> m[v] == Rebuilt(groups[v]))
    && (forall v :: v in was && (v in todo || v !in groups) ==> m[v] == was[v])
  }

  lemma RestoredNext(was: States, m: States, groups: map<string, seq<Telemetry>>, todo: set<string>, v: string)
    requires RestoredSoFar(was, m, groups, todo) && v in todo && todo <= groups.Keys
    ensures RestoredSoFar(was, m[v := Rebuilt(groups[v])], groups, todo - {v})
  {
  }

  method GroupByVehicle(log: seq<Telemetry>) returns (byVehicle: map<string, seq<Telemetry>>)
    ensures byVehicle.Keys == Vehicles(log)
    ensures forall v :: v in byVehicle ==> byVehicle[v] == OfVehicle(log, v)
  {
    byVehicle := map[];
    for k := 0 to |log|
      invariant byVehicle.Keys == Vehicles(log[..k])
      invariant forall v :: v in byVehicle ==> byVehicle[v] == OfVehicle(log[..k], v)
    {
      var t := log[k];
      NextPrefix(log, k);
      GroupNext(byVehicle, log[..k], t);
      byVehicle := byVehicle[t.vehicleId :=
        (if t.vehicleId in byVehicle then byVehicle[t.vehicleId] else []) + [t]];
    }
    WholePrefix(log);
  }

  /** The body of the loop over vehicles: sort the slice, fold it from the empty state. */
  method RebuildOne(group: seq<Telemetry>) returns (cur: VehicleState)
    ensures cur == Rebuilt(group)
  {
    var points := new Telemetry[|group|](i requires 0 <= i < |group| => group[i]);
    assert points[..] == group;
    InsertionSort(points, Earlier());
    cur := EMPTY;
    for k := 0 to points.Length
      invariant points[..] == Sort(group, Earlier()) && cur == ApplyAll(points[..k])
    {
      NextPrefix(points[..], k);
      cur := Apply(cur, points[k]).0;
    }
    assert points[..points.Length] == points[..];
  }

  lemma GroupNext(groups: map<string, seq<Telemetry>>, log: seq<Telemetry>, t: Telemetry)
    requires groups.Keys == Vehicles(log) && forall v :: v in groups ==> groups[v] == OfVehicle(log, v)
    ensures var more := groups[t.vehicleId := (if t.vehicleId in groups then groups[t.vehicleId] else []) + [t]];
      more.Keys == Vehicles(log + [t]) && forall v :: v in more ==> more[v] == OfVehicle(log + [t], v)
  {
    VehiclesNext(log, t);
    OfVehicleMembers(log, t.vehicleId);
    forall v ensures OfVehicle(log + [t], v) == if t.vehicleId == v then OfVehicle(log, v) + [t] else OfVehicle(log, v) {
      FilterNext(log, t, OnVehicle(v));
    }
  }

  lemma VehiclesNext(log: seq<Telemetry>, t: Telemetry)
    ensures Vehicles(log + [t]) == Vehicles(log) + {t.vehicleId}
  {
  }

  lemma RebuiltIdentity(log: seq<Telemetry>, v: string)
    ensures v in Vehicles(log) ==> Rebuilt(OfVehicle(log, v)).vehicleId == v
  {
    OfVehicleMembers(log, v);
    var mine := OfVehicle(log, v);
    SortPermutes(mine, Earlier());
    if mine != [] {
      var sorted := Sort(mine, Earlier());
      assert sorted[|sorted| - 1] in sorted;
    }
  }

  // ---------------------------------------------------------------- live against rebuilt

  /** The fields that do not depend on how the newest point was reached. */
  ghost predicate ShowsPoint(s: VehicleState, t: Telemetry) {
    && s.lastSeen == t.timestamp && s.lat == t.location.lat && s.lng == t.location.lng
    && s.speedKmh == t.speedKmh && s.presence == Online
    && (t.ignition.Some? ==> s.ignition == t.ignition)
    && exists prev :: s.motion == Classify(prev, t)
  }

  /** Whatever the arrival order, the state shows the last-arrived point among those with the greatest event time. */
  lemma {:induction false} StateShowsNewest(points: seq<Telemetry>)
    requires points != [] && TimesSet(points)
    ensures ShowsPoint(ApplyAll(points), Newest(points, Earlier()))
  {
    var n := |points| - 1;
    var front, t := points[..n], points[n];
    var before := ApplyAll(front);
    SplitLast(points);
    if n > 0 {
      StateShowsNewest(front);
      assert Newest(front, Earlier()) in points by {
        var k := NewestIsLastMaximum(front, Earlier());
        assert front[k] in points;
      }
    }
    if !Late(before, t) {
      assert ApplyAll(points).motion == Classify(before.motion, t);
    }
  }

  /** A live last-seen is the event time of some logged point of the vehicle. */
  lemma LiveLastSeen(log: seq<Telemetry>, v: string)
    requires TimesSet(log)
    ensures v in Live(log) ==> exists t :: t in log && t.vehicleId == v && Live(log)[v].lastSeen == t.timestamp
    ensures v !in Live(log) ==> StateOf(Live(log), v) == EMPTY
  {
    LiveProjects(log, v);
    OfVehicleMembers(log, v);
    var mine := OfVehicle(log, v);
    if mine != [] {
      StateShowsNewest(mine);
      var k := NewestIsLastMaximum(mine, Earlier());
      assert mine[k] in mine;
    }
  }

  /** Is the speed known and outside the hysteresis band? */
  predicate OutsideBand(t: Telemetry) {
    t.speedKmh.Some? && (t.speedKmh.value < STOPPED_THRESHOLD || t.speedKmh.value > MOVING_THRESHOLD)
  }

  ghost predicate SameReading(a: VehicleState, b: VehicleState) {
    a.lastSeen == b.lastSeen && a.lat == b.lat && a.lng == b.lng && a.speedKmh == b.speedKmh
  }

  /** A rebuilt state shows the same point as the live one. */
  lemma RebuiltShowsNewest(points: seq<Telemetry>)
    requires points != [] && TimesSet(points)
    ensures ShowsPoint(Rebuilt(points), Newest(points, Earlier()))
  {
    SortPermutes(points, Earlier());
    StateShowsNewest(Sort(points, Earlier()));
    NewestOfSort(points, Earlier());
  }

  lemma SamePointSameReading(a: VehicleState, b: VehicleState, t: Telemetry)
    requires ShowsPoint(a, t) && ShowsPoint(b, t)
    ensures SameReading(a, b) && (OutsideBand(t) ==> a.motion == b.motion) && (t.ignition.Some? ==> a.ignition == b.ignition)
  {
  }

  /** What live and rebuilt state of a vehicle share, `mine` being its points in arrival order. */
  ghost predicate Restores(live: VehicleState, rebuilt: VehicleState, mine: seq<Telemetry>)
    requires mine != []
  {
    var newest := Newest(mine, Earlier());
    && SameReading(live, rebuilt)
    && (OutsideBand(newest) ==> live.motion == rebuilt.motion)
    && (newest.ignition.Some? ==> live.ignition == rebuilt.ignition)
    && (Ordered(mine, Earlier()) ==> live.(presence := Online) == rebuilt)
    && rebuilt.presence == Online
  }

  lemma FoldRestored(live: VehicleState, mine: seq<Telemetry>)
    requires TimesSet(mine) && mine != [] && live.(presence := Online) == ApplyAll(mine).(presence := Online)
    ensures Restores(live, Rebuilt(mine), mine)
  {
    StateShowsNewest(mine);
    RebuiltShowsNewest(mine);
    SamePointSameReading(ApplyAll(mine), Rebuilt(mine), Newest(mine, Earlier()));
    if Ordered(mine, Earlier()) { SortOfOrdered(mine, Earlier()); }
  }

  function PointsOf(steps: seq<Step>): (points: seq<Telemetry>) {
    if steps == [] then []
    else
      var n := |steps| - 1;
      PointsOf(steps[..n]) + if steps[n].Point? then [steps[n].t] else []
  }

  lemma ApplyNext(points: seq<Telemetry>, t: Telemetry)
    ensures ApplyAll(points + [t]) == Apply(ApplyAll(points), t).0
  {
    Prefixed(points, t);
  }

  /** Sweeps touch nothing but presence: in every other field the state is the fold of the points alone. */
  lemma {:induction false} SweepsTouchPresenceOnly(steps: seq<Step>)
    ensures Run(steps).0.(presence := Online) == ApplyAll(PointsOf(steps)).(presence := Online)
  {
    if steps != [] {
      var n := |steps| - 1;
      SweepsTouchPresenceOnly(steps[..n]);
      match steps[n]
      case Point(t) => ApplyNext(PointsOf(steps[..n]), t);
      case Sweep(_, _) => Unchanged(PointsOf(steps[..n]));
    }
  }

  /** The points of a fleet run, in arrival order. */
  function Reports(steps: seq<FleetStep>): (log: seq<Telemetry>) {
    if steps == [] then []
    else
      var n := |steps| - 1;
      Reports(steps[..n]) + if steps[n].Report? then [steps[n].t] else []
  }

  lemma {:induction false} NoticedPoints(steps: seq<FleetStep>, v: string)
    ensures PointsOf(Noticed(steps, v)) == OfVehicle(Reports(steps), v)
  {
    if steps != [] {
      var n := |steps| - 1;
      NoticedPoints(steps[..n], v);
      var mine, log := Noticed(steps[..n], v), Reports(steps[..n]);
      match steps[n]
      case Report(t) =>
        Prefixed(log, t);
        if t.vehicleId == v { Prefixed(mine, Point(t)); } else { Unchanged(mine); }
      case Visit(id, now) =>
        Unchanged(log);
        if id == v { Prefixed(mine, Step.Sweep(0, now)); } else { Unchanged(mine); }
    }
  }

  /** For every interleaving of points, in any arrival order, and sweeps, live and rebuilt state of each vehicle agree
      on last-seen, position and speed; on ignition when the newest point reports one; on motion when the newest
      point's speed is outside the band; and on everything but presence when the vehicle's points arrived in time
      order. The rebuilt vehicle is online, so presence differs exactly when a sweep found the vehicle silent and no
      on-time point has come since. */
  lemma LiveAgreesWithRebuilt(steps: seq<FleetStep>, v: string)
    requires TimesSet(Reports(steps)) && OfVehicle(Reports(steps), v) != []
    ensures var mine, live := OfVehicle(Reports(steps), v), StateOf(FleetRun(steps), v);
      && Restores(live, Rebuilt(mine), mine)
      && (live.presence != Rebuilt(mine).presence <==> Silent(Noticed(steps, v), |Noticed(steps, v)|))
  {
    var mine, noticed := OfVehicle(Reports(steps), v), Noticed(steps, v);
    FleetProjects(steps, v);
    NoticedPoints(steps, v);
    SweepsTouchPresenceOnly(noticed);
    OfVehicleMembers(Reports(steps), v);
    FoldRestored(Run(noticed).0, mine);
    StateShowsNewest(mine);
    OfVehicleNewest(mine);
    OfflineIff(noticed, |noticed|);
    WholePrefix(noticed);
  }

  lemma OfVehicleNewest(mine: seq<Telemetry>)
    requires mine != [] && TimesSet(mine)
    ensures Newest(mine, Earlier()).timestamp != 0
  {
    var k := NewestIsLastMaximum(mine, Earlier());
    assert mine[k] in mine;
  }

  /** The instance: a point, then a sweep 901 seconds later. */
  lemma SilenceIsNotRebuilt(t: Telemetry)
    requires t.timestamp != 0
    ensures var steps := [Report(t), Visit(t.vehicleId, t.timestamp + 901 * SECOND)];
      StateOf(FleetRun(steps), t.vehicleId).presence == Offline && Rebuilt(OfVehicle(Reports(steps), t.vehicleId)).presence == Online
  {
    var visit := Visit(t.vehicleId, t.timestamp + 901 * SECOND);
    OneReport(t);
    assert [Report(t), visit] == [Report(t)] + [visit];
    Prefixed([Report(t)], visit);
    assert GoesOffline(FleetRun([Report(t)]), t.vehicleId, visit.now);
    RebuiltShowsNewest([t]);
  }

  lemma OneReport(t: Telemetry)
    ensures FleetRun([Report(t)]) == map[t.vehicleId := Apply(EMPTY, t).0]
    ensures Reports([Report(t)]) == [t] && OfVehicle([t], t.vehicleId) == [t]
  {
    Prefixed([], Report(t));
    assert [] + [t] == [t] && OfVehicle([], t.vehicleId) == [];
    FilterNext([], t, OnVehicle(t.vehicleId));
  }

  /** The rebuilt state does not depend on arrival order, provided different points have different event times. */
  lemma RebuildIgnoresArrivalOrder(a: seq<Telemetry>, b: seq<Telemetry>)
    requires multiset(a) == multiset(b)
    requires forall x, y :: x in a && y in a && x.timestamp == y.timestamp ==> x == y
    ensures Rebuilt(a) == Rebuilt(b)
  {
    SortPermutes(a, Earlier());
    SortPermutes(b, Earlier());
    OrderedUnique(Sort(a, Earlier()), Sort(b, Earlier()), Earlier());
  }

  // ---------------------------------------------------------------- where they differ

  lemma TwoPoints(a: Telemetry, b: Telemetry)
    ensures ApplyAll([a, b]) == Apply(Apply(EMPTY, a).0, b).0
    ensures Rebuilt([a, b]) == if b.timestamp < a.timestamp then Apply(Apply(EMPTY, b).0, a).0 else Apply(Apply(EMPTY, a).0, b).0
  {
    OnePoint(a, b);
    OnePoint(b, a);
    SortPair(a, b, Earlier());
  }

  lemma OnePoint(a: Telemetry, b: Telemetry)
    ensures ApplyAll([a, b]) == Apply(Apply(EMPTY, a).0, b).0
  {
    assert [a, b][..1] == [a] && [a][..0] == [];
    assert ApplyAll([a]) == Apply(ApplyAll([]), a).0;
  }

  /** The band is the exact condition: after every newest point that is not outside it, an earlier fast point that
      arrives late leaves live and rebuilt motion apart. */
  lemma LateDataLeavesTraces(late: Telemetry, newest: Telemetry)
    requires !OutsideBand(newest) && late.speedKmh.Some? && late.speedKmh.value > MOVING_THRESHOLD
    requires 0 < late.timestamp < newest.timestamp
    ensures ApplyAll([newest, late]).motion != Moving && Rebuilt([newest, late]).motion == Moving
  {
    TwoPoints(newest, late);
  }

  /** The same for ignition: after every newest point that reports none, a late point that reports one leaves live and
      rebuilt ignition apart. */
  lemma LateIgnitionLeavesTraces(late: Telemetry, newest: Telemetry)
    requires newest.ignition.None? && late.ignition.Some? && 0 < late.timestamp < newest.timestamp
    ensures ApplyAll([newest, late]).ignition == None && Rebuilt([newest, late]).ignition == late.ignition
  {
    TwoPoints(newest, late);
  }

  /** The live state carries the tenant of the last arrival, even a late one; the rebuilt state that of the newest
      point. They agree exactly when those two points do. */
  lemma TenantsAgreeIff(points: seq<Telemetry>)
    requires points != []
    ensures ApplyAll(points).tenantId == Rebuilt(points).tenantId
       <==> points[|points| - 1].tenantId == Newest(points, Earlier()).tenantId
  {
    var sorted := Sort(points, Earlier());
    SortPermutes(points, Earlier());
    NewestOfSort(points, Earlier());
    NewestOfOrdered(sorted, Earlier());
  }

  /** On a tie the rebuilt state does depend on arrival order. */
  lemma TiesDependOnArrival(a: Telemetry, b: Telemetry)
    requires a.timestamp == b.timestamp != 0 && a.speedKmh != b.speedKmh
    ensures Rebuilt([a, b]).speedKmh != Rebuilt([b, a]).speedKmh
  {
    TwoPoints(a, b);
    TwoPoints(b, a);
  }
}
