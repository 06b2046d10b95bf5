/** What late points leave behind: the live state, log by log, against the rebuilt one. */
module Lateness {
  import opened Schemas
  import VehicleStates
  import opened StateStore
  import opened Sorting
  import opened Rebuild
  import opened Ties

  /** The points that were on time when they arrived. */
  function OnTimePoints(points: seq<Telemetry>): (kept: seq<Telemetry>) {
    if points == [] then []
    else
      var n := |points| - 1;
      var kept := OnTimePoints(points[..n]);
      if VehicleStates.Late(ApplyAll(points[..n]), points[n]) then kept else kept + [points[n]]
  }

  /** The state without the fields that a late point rewrites. */
  function Timed(s: VehicleStates.VehicleState): VehicleStates.VehicleState {
    s.(tenantId := "", vehicleId := "")
  }

  lemma ApplyTimed(s: VehicleStates.VehicleState, r: VehicleStates.VehicleState, t: Telemetry)
    requires Timed(s) == Timed(r)
    ensures VehicleStates.Late(s, t) == VehicleStates.Late(r, t)
    ensures Timed(VehicleStates.Apply(s, t).0) == Timed(VehicleStates.Apply(r, t).0)
  {
  }

  lemma LateTimed(s: VehicleStates.VehicleState, t: Telemetry)
    requires VehicleStates.Late(s, t) && s.motion != VehicleStates.Unset && s.presence != VehicleStates.NoPresence
    ensures Timed(VehicleStates.Apply(s, t).0) == Timed(s)
  {
  }

  lemma NeverBlank(points: seq<Telemetry>)
    requires points != [] && TimesSet(points)
    ensures ApplyAll(points).motion != VehicleStates.Unset && ApplyAll(points).presence != VehicleStates.NoPresence
  {
    StateShowsNewest(points);
  }

  /** Apart from tenant and vehicle id the live state is the fold of the on-time points, which are in time order. */
  lemma {:induction false} LiveIsOnTime(points: seq<Telemetry>)
    requires TimesSet(points)
    ensures Timed(ApplyAll(points)) == Timed(ApplyAll(OnTimePoints(points)))
    ensures TimesSet(OnTimePoints(points)) && Ordered(OnTimePoints(points), Earlier())
    ensures forall t :: t in OnTimePoints(points) ==> t.timestamp <= ApplyAll(points).lastSeen
  {
    if points != [] {
      var front, t := points[..|points| - 1], points[|points| - 1];
      SplitLast(points);
      LiveIsOnTime(front);
      var s, kept := ApplyAll(front), OnTimePoints(front);
      ApplyTimed(s, ApplyAll(kept), t);
      if VehicleStates.Late(s, t) {
        NeverBlank(front);
        LateTimed(s, t);
      } else {
        ApplyNext(kept, t);
        OnTimeNext(kept, t, s.lastSeen);
      }
    }
  }

  lemma OnTimeNext(kept: seq<Telemetry>, t: Telemetry, lastSeen: int)
    requires TimesSet(kept) && Ordered(kept, Earlier()) && t.timestamp != 0
    requires (forall x :: x in kept ==> x.timestamp <= lastSeen) && (kept != [] ==> lastSeen <= t.timestamp)
    ensures TimesSet(kept + [t]) && Ordered(kept + [t], Earlier()) && forall x :: x in kept + [t] ==> x.timestamp <= t.timestamp
  {
    forall i | 0 <= i < |kept| ensures !Earlier()(t, kept[i]) {
      assert kept[i] in kept;
    }
  }

  // ---------------------------------------------------------------- field by field

  /** The live motion is what the last deciding and the last settling on-time point say. */
  lemma LiveMotion(points: seq<Telemetry>)
    requires TimesSet(points) && points != []
    ensures var kept := OnTimePoints(points);
      ApplyAll(points).motion == MotionFrom(LastView(Filter(kept, Decides()), IsFast()), LastView(Filter(kept, Settles()), IsOn()))
  {
    var kept := OnTimePoints(points);
    LiveIsOnTime(points);
    NeverBlank(points);
    assert Timed(ApplyAll(points)).motion == Timed(ApplyAll(kept)).motion;
    MotionInOrder(kept);
  }

  /** The last ignition that the points report. */
  function LastIgnition(kept: seq<Telemetry>): Option<bool> {
    var told := Filter(kept, HasIgnition());
    if told == [] then None else told[|told| - 1].ignition
  }

  lemma LiveIgnition(points: seq<Telemetry>)
    requires TimesSet(points)
    ensures ApplyAll(points).ignition == LastIgnition(OnTimePoints(points))
  {
    LiveIsOnTime(points);
    assert Timed(ApplyAll(points)).ignition == Timed(ApplyAll(OnTimePoints(points))).ignition;
    IgnitionInOrder(OnTimePoints(points));
  }

  /** The last point outside the band that was on time, and the newest one of the whole log, agree on whether the vehicle
      moves; and unless it does, the last settling points agree on whether the ignition is on. */
  ghost predicate MotionUntouched(points: seq<Telemetry>) {
    var kept := OnTimePoints(points);
    var fast, newestFast := LastView(Filter(kept, Decides()), IsFast()), Shown(points, Earlier(), Decides(), IsFast());
    && (fast == Some(true) <==> newestFast == Some(true))
    && (fast == Some(true) || LastView(Filter(kept, Settles()), IsOn()) == Shown(points, Earlier(), Settles(), IsOn()))
  }

  lemma LiveMotionAgreesIff(points: seq<Telemetry>)
    requires TimesSet(points) && points != []
    ensures ApplyAll(points).motion == Rebuilt(points).motion <==> MotionUntouched(points)
  {
    var kept := OnTimePoints(points);
    LiveMotion(points);
    RebuiltMotion(points);
    MotionFromAgrees(LastView(Filter(kept, Decides()), IsFast()), LastView(Filter(kept, Settles()), IsOn()),
                     Shown(points, Earlier(), Decides(), IsFast()), Shown(points, Earlier(), Settles(), IsOn()));
  }

  lemma MotionFromAgrees(fast: Option<bool>, on: Option<bool>, fast': Option<bool>, on': Option<bool>)
    ensures MotionFrom(fast, on) == MotionFrom(fast', on') <==>
      (fast == Some(true) <==> fast' == Some(true)) && (fast == Some(true) || on == on')
  {
  }

  /** The last on-time report of ignition is the newest one of the whole log. */
  ghost predicate IgnitionUntouched(points: seq<Telemetry>) {
    var told := LastIgnition(OnTimePoints(points));
    (if told.None? then None else Some(told)) == Shown(points, Earlier(), HasIgnition(), IgnitionOf())
  }

  lemma LiveIgnitionAgreesIff(points: seq<Telemetry>)
    requires TimesSet(points)
    ensures ApplyAll(points).ignition == Rebuilt(points).ignition <==> IgnitionUntouched(points)
  {
    LiveIgnition(points);
    RebuiltIgnition(points);
  }

  // ---------------------------------------------------------------- the whole state

  /** Late points have left no trace in the live state. */
  ghost predicate NoTrace(points: seq<Telemetry>)
    requires points != []
  {
    && points[|points| - 1].tenantId == Newest(points, Earlier()).tenantId
    && IgnitionUntouched(points)
    && MotionUntouched(points)
  }

  /** Log by log: the live state of a vehicle is the rebuilt one if and only if late points left no trace in tenant,
      ignition and motion. */
  lemma LiveIsRebuiltIff(points: seq<Telemetry>, v: string)
    requires TimesSet(points) && points != [] && OneVehicle(points, v)
    ensures ApplyAll(points) == Rebuilt(points) <==> NoTrace(points)
  {
    TenantsAgreeIff(points);
    LiveIgnitionAgreesIff(points);
    LiveMotionAgreesIff(points);
    OtherFields(points, v);
    RebuiltOtherFields(points, v);
    StateShowsNewest(points);
    RebuiltShowsNewest(points);
  }

  /** The same for every interleaving with sweeps, presence aside. */
  lemma FleetIsRebuiltIff(steps: seq<FleetStep>, v: string)
    requires TimesSet(Reports(steps)) && OfVehicle(Reports(steps), v) != []
    ensures var mine := OfVehicle(Reports(steps), v);
      StateOf(FleetRun(steps), v).(presence := VehicleStates.Online) == Rebuilt(mine) <==> NoTrace(mine)
  {
    var mine, noticed := OfVehicle(Reports(steps), v), Noticed(steps, v);
    FleetProjects(steps, v);
    NoticedPoints(steps, v);
    SweepsTouchPresenceOnly(noticed);
    OfVehicleMembers(Reports(steps), v);
    StateShowsNewest(mine);
    LiveIsRebuiltIff(mine, v);
  }
}
