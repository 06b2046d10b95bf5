/**
 What the pipeline announces for a point, read off its computed events alone:
 geofence crossings, and what the detectors are to say about the vehicle's
 accepted history.
 */
module EventMeaning {
  import opened Collections
  import opened Schemas
  import opened VehicleStates
  import opened StateStore
  import opened Sorting
  import opened Pipeline
  import opened PipelineRuns
  import opened ComputedEvents
  import Polygon
  import Rebuild
  import GeoTracker
  import Debounce
  import Detectors
  import Rules
  import RuleMeaning

  // ---------------------------------------------------------------- kinds of events

  function IsSpeed(): Event -> bool { (e: Event) => e.payload.Speed? }
  function IsIdling(): Event -> bool { (e: Event) => e.payload.Position? }
  function IsTrip(): Event -> bool { (e: Event) => e.payload.TripStart? || e.payload.TripEnd? }
  function IsFence(): Event -> bool { (e: Event) => e.payload.Fence? }
  function IsRule(): Event -> bool { (e: Event) => e.payload.RuleMatch? }

  ghost predicate AllOf(es: seq<Event>, kind: Event -> bool) {
    forall e :: e in es ==> kind(e)
  }

  ghost predicate NoneOf(es: seq<Event>, kind: Event -> bool) {
    forall e :: e in es ==> !kind(e)
  }

  lemma {:induction false} FilterKind(es: seq<Event>, kind: Event -> bool)
    ensures AllOf(es, kind) ==> Filter(es, kind) == es
    ensures NoneOf(es, kind) ==> Filter(es, kind) == []
  {
    if es != [] {
      SplitLast(es);
      FilterKind(es[..|es| - 1], kind);
      Unchanged(Filter(es[..|es| - 1], kind));
    }
  }

  lemma {:induction false} FilterConcat(a: seq<Event>, b: seq<Event>, kind: Event -> bool)
    ensures Filter(a + b, kind) == Filter(a, kind) + Filter(b, kind)
  {
    if b == [] {
      Unchanged(a);
      Unchanged(Filter(a, kind));
    } else {
      var front, e := b[..|b| - 1], b[|b| - 1];
      SplitLast(b);
      FilterConcat(a, front, kind);
      Joined(a, front, [e]);
      FilterNext(a + front, e, kind);
      FilterNext(front, e, kind);
      Joined(Filter(a, kind), Filter(front, kind), [e]);
    }
  }

  /** The five parts of a point's events. */
  datatype Parts = Parts(speed: seq<Event>, idling: seq<Event>, trip: seq<Event>, fence: seq<Event>, rule: seq<Event>)

  function Whole(p: Parts): seq<Event> {
    p.speed + p.idling + p.trip + p.fence + p.rule
  }

  ghost predicate Sorted(p: Parts) {
    AllOf(p.speed, IsSpeed()) && AllOf(p.idling, IsIdling()) && AllOf(p.trip, IsTrip()) && AllOf(p.fence, IsFence()) && AllOf(p.rule, IsRule())
  }

  lemma FilterWhole(p: Parts, kind: Event -> bool)
    ensures Filter(Whole(p), kind)
         == Filter(p.speed, kind) + Filter(p.idling, kind) + Filter(p.trip, kind) + Filter(p.fence, kind) + Filter(p.rule, kind)
  {
    FilterConcat(p.speed + p.idling + p.trip + p.fence, p.rule, kind);
    FilterConcat(p.speed + p.idling + p.trip, p.fence, kind);
    FilterConcat(p.speed + p.idling, p.trip, kind);
    FilterConcat(p.speed, p.idling, kind);
  }

  lemma SpeedPart(p: Parts)
    requires Sorted(p)
    ensures Filter(Whole(p), IsSpeed()) == p.speed
  {
    assert NoneOf(p.idling, IsSpeed()) && NoneOf(p.trip, IsSpeed()) && NoneOf(p.fence, IsSpeed()) && NoneOf(p.rule, IsSpeed());
    FilterWhole(p, IsSpeed());
    FilterKind(p.speed, IsSpeed());
    FilterKind(p.idling, IsSpeed());
    FilterKind(p.trip, IsSpeed());
    FilterKind(p.fence, IsSpeed());
    FilterKind(p.rule, IsSpeed());
    Unchanged(p.speed);
    Unchanged<Event>([]);
  }

  lemma IdlingPart(p: Parts)
    requires Sorted(p)
    ensures Filter(Whole(p), IsIdling()) == p.idling
  {
    assert NoneOf(p.speed, IsIdling()) && NoneOf(p.trip, IsIdling()) && NoneOf(p.fence, IsIdling()) && NoneOf(p.rule, IsIdling());
    FilterWhole(p, IsIdling());
    FilterKind(p.speed, IsIdling());
    FilterKind(p.idling, IsIdling());
    FilterKind(p.trip, IsIdling());
    FilterKind(p.fence, IsIdling());
    FilterKind(p.rule, IsIdling());
    Unchanged(p.idling);
    Unchanged<Event>([]);
  }

  lemma TripPart(p: Parts)
    requires Sorted(p)
    ensures Filter(Whole(p), IsTrip()) == p.trip
  {
    assert NoneOf(p.speed, IsTrip()) && NoneOf(p.idling, IsTrip()) && NoneOf(p.fence, IsTrip()) && NoneOf(p.rule, IsTrip());
    FilterWhole(p, IsTrip());
    FilterKind(p.speed, IsTrip());
    FilterKind(p.idling, IsTrip());
    FilterKind(p.trip, IsTrip());
    FilterKind(p.fence, IsTrip());
    FilterKind(p.rule, IsTrip());
    Unchanged(p.trip);
    Unchanged<Event>([]);
  }

  lemma FencePart(p: Parts)
    requires Sorted(p)
    ensures Filter(Whole(p), IsFence()) == p.fence
  {
    assert NoneOf(p.speed, IsFence()) && NoneOf(p.idling, IsFence()) && NoneOf(p.trip, IsFence()) && NoneOf(p.rule, IsFence());
    FilterWhole(p, IsFence());
    FilterKind(p.speed, IsFence());
    FilterKind(p.idling, IsFence());
    FilterKind(p.trip, IsFence());
    FilterKind(p.fence, IsFence());
    FilterKind(p.rule, IsFence());
    Unchanged(p.fence);
    Unchanged<Event>([]);
  }

  // ---------------------------------------------------------------- the parts of a point's events

  lemma {:induction false} FencesAreFences(t: Telemetry, flips: seq<GeoTracker.Observation>)
    ensures AllOf(GeoTracker.FenceEvents(t, flips), IsFence())
  {
    if flips != [] { FencesAreFences(t, flips[..|flips| - 1]); }
  }

  lemma {:induction false} TripsAreTrips(es: seq<Detectors.TripEvent>, t: Telemetry)
    ensures AllOf(Detectors.TripEvents(es, t), IsTrip())
  {
    if es != [] { TripsAreTrips(es[1..], t); }
  }

  lemma {:induction false} RuleEventsAreRules(v: Rules.Valves, spec: Rules.Spec, x: Rules.Context, n: nat)
    requires n <= |x.evs|
    ensures AllOf(Rules.RuleRun(v, spec, x, n).events, IsRule())
  {
    if n > 0 { RuleEventsAreRules(v, spec, x, n - 1); }
  }

  lemma {:induction false} RulesAreRules(v: Rules.Valves, rules: map<string, Rules.Rule>, order: seq<string>, x: Rules.Context)
    ensures AllOf(Rules.EvaluateIn(v, rules, order, x).events, IsRule())
  {
    if order != [] {
      var n := |order| - 1;
      RulesAreRules(v, rules, order[..n], x);
      if order[n] in rules {
        RuleEventsAreRules(Rules.EvaluateIn(v, rules, order[..n], x).valves, rules[order[n]].spec, x, |x.evs|);
      }
    }
  }

  function SpeedBefore(c: Core, v: string): Detectors.SpeedTrack {
    Detectors.Lookup(c.memory.speeding, v, Detectors.NO_SPEEDING)
  }

  function IdlingBefore(c: Core, v: string): Debounce.Track {
    Detectors.Lookup(c.memory.idle, v, Detectors.NO_IDLING)
  }

  function TripBefore(c: Core, v: string): Detectors.TripTrack {
    Detectors.Lookup(c.memory.trips, v, Detectors.NO_TRIP)
  }

  /** The parts, by the steps that make them. */
  ghost predicate MadeBySteps(p: Parts, env: Setup, c: Core, x: Arrival) {
    var t, motion, cfg := x.t, NextState(c.states, x.t).motion, env.detectors;
    && p.speed == Detectors.SpeedEvents(Detectors.SpeedStep(SpeedBefore(c, t.vehicleId), t, cfg).1, t, cfg)
    && p.idling == Detectors.IdleEvents(Debounce.Step(IdlingBefore(c, t.vehicleId), Debounce.Sample(t.timestamp, motion == Idle),
                                                      cfg.idleForSecs * SECOND).1, t)
    && p.trip == Detectors.TripEvents(Detectors.TripStep(TripBefore(c, t.vehicleId), t, motion == Moving, cfg).1, t)
    && p.fence == (if x.policy.fences.None? then []
                   else GeoTracker.FenceEvents(t, GeoTracker.EvaluateSpec(c.members, x.policy.fences.value, t).1))
  }

  lemma PartsOf(env: Setup, c: Core, x: Arrival) returns (p: Parts)
    requires Ingest(env, c, x).1.Accepted?
    ensures Events(Ingest(env, c, x).1) == Whole(p) && MadeBySteps(p, env, c, x) && AllOf(p.rule, IsRule())
  {
    IngestOutline(env, c, x);
    var c1 := c.(seen := c.seen[DedupKey(x.t) := x.clock.dedup]);
    FreshIsAbsorbed(env, c, c1, x);
    var t, next, cfg := x.t, NextState(c.states, x.t), env.detectors;
    var derived := Absorb(env, c1, x).1.derived;
    var context := Rules.Context(t, next, derived, x.clock.rules);
    if x.policy.rules.Some? { RulesAreRules(c.valves, x.policy.rules.value, x.order, context); }
    p := Parts(Detectors.SpeedEvents(Detectors.SpeedStep(SpeedBefore(c, t.vehicleId), t, cfg).1, t, cfg),
               Detectors.IdleEvents(Debounce.Step(IdlingBefore(c, t.vehicleId), Debounce.Sample(t.timestamp, next.motion == Idle),
                                                  cfg.idleForSecs * SECOND).1, t),
               Detectors.TripEvents(Detectors.TripStep(TripBefore(c, t.vehicleId), t, next.motion == Moving, cfg).1, t),
               if x.policy.fences.None? then []
               else GeoTracker.FenceEvents(t, GeoTracker.EvaluateSpec(c.members, x.policy.fences.value, t).1),
               Ruled(x.policy, c.valves, x.order, context).events);
  }

  /** The events of each kind among the events of an accepted point are exactly those of its detector or of its fences. */
  lemma KindsOfPoint(env: Setup, c: Core, x: Arrival) returns (p: Parts)
    requires Ingest(env, c, x).1.Accepted?
    ensures MadeBySteps(p, env, c, x)
    ensures var es := Events(Ingest(env, c, x).1);
      && Filter(es, IsSpeed()) == p.speed && Filter(es, IsIdling()) == p.idling
      && Filter(es, IsTrip()) == p.trip && Filter(es, IsFence()) == p.fence
  {
    p := PartsOf(env, c, x);
    PartsAreSorted(p, env, c, x);
    SpeedPart(p);
    IdlingPart(p);
    TripPart(p);
    FencePart(p);
  }

  lemma PartsAreSorted(p: Parts, env: Setup, c: Core, x: Arrival)
    requires MadeBySteps(p, env, c, x) && AllOf(p.rule, IsRule())
    ensures Sorted(p)
  {
    TripsAreTrips(Detectors.TripStep(TripBefore(c, x.t.vehicleId), x.t, NextState(c.states, x.t).motion == Moving, env.detectors).1, x.t);
    if x.policy.fences.Some? {
      FencesAreFences(x.t, GeoTracker.EvaluateSpec(c.members, x.policy.fences.value, x.t).1);
    }
  }

  // ---------------------------------------------------------------- geofences

  /** What the events say about a vehicle and a fence id: true is entered. */
  function Crossings(es: seq<Event>, v: string, id: string): (h: seq<bool>) {
    if es == [] then []
    else
      var e := es[|es| - 1];
      Crossings(es[..|es| - 1], v, id) +
      if e.payload.Fence? && e.payload.geofenceId == id && e.vehicleId == v then [e.eventType == "vehicle.geofence.entered"] else []
  }

  lemma CrossingsNext(es: seq<Event>, e: Event, v: string, id: string)
    ensures Crossings(es + [e], v, id)
         == if e.payload.Fence? && e.payload.geofenceId == id && e.vehicleId == v
            then Crossings(es, v, id) + [e.eventType == "vehicle.geofence.entered"] else Crossings(es, v, id)
  {
    Prefixed(es, e);
    Unchanged(Crossings(es, v, id));
  }

  /** Only fence events count. */
  lemma {:induction false} CrossingsOfFences(es: seq<Event>, v: string, id: string)
    ensures Crossings(es, v, id) == Crossings(Filter(es, IsFence()), v, id)
  {
    if es != [] {
      var front, e := es[..|es| - 1], es[|es| - 1];
      SplitLast(es);
      CrossingsOfFences(front, v, id);
      CrossingsNext(front, e, v, id);
      FilterNext(front, e, IsFence());
      CrossingsNext(Filter(front, IsFence()), e, v, id);
    }
  }

  lemma {:induction false} CrossingsConcat(a: seq<Event>, b: seq<Event>, v: string, id: string)
    ensures Crossings(a + b, v, id) == Crossings(a, v, id) + Crossings(b, v, id)
  {
    if b == [] {
      Unchanged(a);
      Unchanged(Crossings(a, v, id));
    } else {
      var front, e := b[..|b| - 1], b[|b| - 1];
      SplitLast(b);
      CrossingsConcat(a, front, v, id);
      Joined(a, front, [e]);
      CrossingsNext(a + front, e, v, id);
      CrossingsNext(front, e, v, id);
      Joined(Crossings(a, v, id), Crossings(front, v, id), [e.eventType == "vehicle.geofence.entered"]);
    }
  }

  lemma DifferentTypes()
    ensures "vehicle.geofence.entered" != "vehicle.geofence.exited"
  {
    assert |"vehicle.geofence.entered"| == 24 && |"vehicle.geofence.exited"| == 23;
  }

  lemma {:induction false} CrossingsAreFlips(t: Telemetry, flips: seq<GeoTracker.Observation>, v: string, id: string)
    ensures Crossings(GeoTracker.FenceEvents(t, flips), v, id) == if t.vehicleId == v then GeoTracker.FlipsOf(flips, id) else []
  {
    if flips != [] {
      var front, o := flips[..|flips| - 1], flips[|flips| - 1];
      CrossingsAreFlips(t, front, v, id);
      DifferentTypes();
      CrossingsNext(GeoTracker.FenceEvents(t, front), GeoTracker.FenceEvent(t, o), v, id);
      Unchanged(GeoTracker.FlipsOf(front, id));
    }
  }

  lemma CrossingsOfPoint(env: Setup, c: Core, x: Arrival, v: string, id: string)
    requires Ingest(env, c, x).1.Accepted?
    ensures Crossings(Events(Ingest(env, c, x).1), v, id)
         == if x.policy.fences.None? || x.t.vehicleId != v then []
            else GeoTracker.FlipsOf(GeoTracker.EvaluateSpec(c.members, x.policy.fences.value, x.t).1, id)
  {
    var es := Events(Ingest(env, c, x).1);
    var p := KindsOfPoint(env, c, x);
    CrossingsOfFences(es, v, id);
    if x.policy.fences.Some? {
      CrossingsAreFlips(x.t, GeoTracker.EvaluateSpec(c.members, x.policy.fences.value, x.t).1, v, id);
    }
  }

  /** Among the events of an accepted point, for every fence in force, ids being unique: entered exactly once if the
      fence contains the position and the vehicle was not a member, exited exactly once in the reverse case, and
      neither otherwise. */
  lemma FenceEventsOfPoint(env: Setup, c: Core, x: Arrival, fences: seq<Polygon.Geofence>, g: Polygon.Geofence)
    requires Ingest(env, c, x).1.Accepted? && x.policy.fences == Some(fences) && GeoTracker.UniqueIds(fences) && g in fences
    ensures var inside := Polygon.Inside(g.polygon, GeoTracker.PositionOf(x.t));
      var was := GeoTracker.Member(GeoTracker.MemberOf(c.members, x.t.vehicleId), g.id);
      Crossings(Events(Ingest(env, c, x).1), x.t.vehicleId, g.id) == if inside == was then [] else [inside]
  {
    CrossingsOfPoint(env, c, x, x.t.vehicleId, g.id);
    GeoTracker.FlipsOnce(c.members, fences, x.t, g);
  }

  lemma {:induction false} FlipsAlternate(h: seq<bool>, mem: map<string, bool>, obs: seq<GeoTracker.Observation>, id: string)
    requires GeoTracker.Alternates(h, GeoTracker.Member(mem, id))
    ensures GeoTracker.Alternates(h + GeoTracker.FlipsOf(GeoTracker.Observe(mem, obs).1, id),
                                  GeoTracker.Member(GeoTracker.Observe(mem, obs).0, id))
  {
    if obs == [] {
      Unchanged(h);
    } else {
      var front, o := obs[..|obs| - 1], obs[|obs| - 1];
      FlipsAlternate(h, mem, front, id);
      var r := GeoTracker.Observe(mem, front);
      var so := GeoTracker.FlipsOf(r.1, id);
      Prefixed(r.1, o);
      Unchanged(so);
      if o.fence.id == id && o.inside != GeoTracker.Member(r.0, id) {
        Joined(h, so, [o.inside]);
        GeoTracker.AlternatesNext(h + so, GeoTracker.Member(r.0, id));
      }
    }
  }

  lemma EvaluationAlternates(h: seq<bool>, members: GeoTracker.Members, fences: seq<Polygon.Geofence>, t: Telemetry, v: string,
                             id: string)
    requires GeoTracker.Alternates(h, GeoTracker.Member(GeoTracker.MemberOf(members, v), id))
    ensures var r := GeoTracker.EvaluateSpec(members, fences, t);
      GeoTracker.Alternates(if t.vehicleId == v then h + GeoTracker.FlipsOf(r.1, id) else h,
                            GeoTracker.Member(GeoTracker.MemberOf(r.0, v), id))
  {
    if t.vehicleId == v {
      FlipsAlternate(h, GeoTracker.MemberOf(members, v), GeoTracker.Observations(fences, GeoTracker.PositionOf(t)), id);
    }
  }

  lemma CrossingsStep(env: Setup, c: Core, x: Arrival, h: seq<bool>, v: string, id: string)
    requires GeoTracker.Alternates(h, GeoTracker.Member(GeoTracker.MemberOf(c.members, v), id))
    ensures var r := Ingest(env, c, x);
      GeoTracker.Alternates(h + Crossings(Events(r.1), v, id), GeoTracker.Member(GeoTracker.MemberOf(r.0.members, v), id))
  {
    IngestOutline(env, c, x);
    Unchanged(h);
    if Ingest(env, c, x).1.Accepted? {
      CrossingsOfPoint(env, c, x, v, id);
      MembersOfPoint(env, c, x);
      if x.policy.fences.Some? { EvaluationAlternates(h, c.members, x.policy.fences.value, x.t, v, id); }
    }
  }

  lemma MembersOfPoint(env: Setup, c: Core, x: Arrival)
    requires Ingest(env, c, x).1.Accepted?
    ensures Ingest(env, c, x).0.members
         == if x.policy.fences.None? then c.members else GeoTracker.EvaluateSpec(c.members, x.policy.fences.value, x.t).0
  {
  }

  /** Exactly-one semantics in the computed events of every stream, fence lists replaced and ids repeated at will: for
      each vehicle and fence id, entered and exited strictly alternate, entered first, and membership tells which came
      last. */
  lemma {:induction false} CrossingsAlternate(env: Setup, xs: seq<Arrival>, n: nat, v: string, id: string)
    requires n <= |xs|
    ensures GeoTracker.Alternates(Crossings(Computed(env, xs[..n]), v, id),
                                  GeoTracker.Member(GeoTracker.MemberOf(CoreAfter(env, xs[..n]).members, v), id))
  {
    if n > 0 {
      CrossingsAlternate(env, xs, n - 1, v, id);
      CoreNext(env, xs, n - 1);
      var c, before := CoreAfter(env, xs[..n - 1]), Computed(env, xs[..n - 1]);
      CrossingsStep(env, c, xs[n - 1], Crossings(before, v, id), v, id);
      CrossingsConcat(before, Events(VerdictAt(env, xs, n - 1)), v, id);
    }
  }

  // ---------------------------------------------------------------- detectors

  /** The log as the detectors saw it: every point with the motion of its vehicle after it. */
  function Inputs(log: seq<Telemetry>): (xs: seq<Detectors.Input>) {
    if log == [] then []
    else
      var n := |log| - 1;
      Inputs(log[..n]) + [Detectors.Input(log[n], StateOf(Rebuild.Live(log), log[n].vehicleId).motion)]
  }

  /** Detector memory is a function of the log. */
  lemma {:induction false} MemoryIsOfLog(env: Setup, xs: seq<Arrival>, n: nat)
    requires n <= |xs|
    ensures var c := CoreAfter(env, xs[..n]); c.memory == Detectors.MemoryAfter(Inputs(c.log), env.detectors)
  {
    if n > 0 {
      MemoryIsOfLog(env, xs, n - 1);
      CoreNext(env, xs, n - 1);
      MemoryNext(env, CoreAfter(env, xs[..n - 1]), xs[n - 1]);
      StatesAreLive(env, xs[..n - 1]);
    }
  }

  lemma MemoryNext(env: Setup, c: Core, x: Arrival)
    requires c.memory == Detectors.MemoryAfter(Inputs(c.log), env.detectors)
    ensures c.states == Rebuild.Live(c.log) ==>
      Ingest(env, c, x).0.memory == Detectors.MemoryAfter(Inputs(Ingest(env, c, x).0.log), env.detectors)
  {
    IngestOutline(env, c, x);
    if Ingest(env, c, x).1.Accepted? && c.states == Rebuild.Live(c.log) {
      var t, log := x.t, c.log;
      Prefixed(log, t);
      var input := Detectors.Input(t, NextState(c.states, t).motion);
      assert Inputs(log + [t]) == Inputs(log) + [input];
      Prefixed(Inputs(log), input);
      MemoryOfPoint(env, c, x);
    }
  }

  lemma MemoryOfPoint(env: Setup, c: Core, x: Arrival)
    requires Ingest(env, c, x).1.Accepted?
    ensures Ingest(env, c, x).0.memory == Detectors.DetectSpec(c.memory, env.detectors, x.t, NextState(c.states, x.t).motion).0
  {
  }

  /** A vehicle's own points, each with the motion it left. */
  function Watched(h: seq<Telemetry>): (xs: seq<Detectors.Input>)
    ensures |xs| == |h| && forall j :: 0 <= j < |h| ==> xs[j].t == h[j]
  {
    if h == [] then []
    else Watched(h[..|h| - 1]) + [Detectors.Input(h[|h| - 1], Rebuild.ApplyAll(h).motion)]
  }

  lemma WatchedNext(h: seq<Telemetry>, t: Telemetry)
    ensures Watched(h + [t]) == Watched(h) + [Detectors.Input(t, Rebuild.ApplyAll(h + [t]).motion)]
  {
    Prefixed(h, t);
  }

  lemma {:induction false} OwnInputs(log: seq<Telemetry>, v: string)
    ensures Filter(Inputs(log), Detectors.OnVehicle(v)) == Watched(Rebuild.OfVehicle(log, v))
  {
    if log != [] {
      var front, t := log[..|log| - 1], log[|log| - 1];
      SplitLast(log);
      OwnInputs(front, v);
      FilterNext(front, t, Rebuild.OnVehicle(v));
      FilterNext(Inputs(front), Detectors.Input(t, StateOf(Rebuild.Live(log), t.vehicleId).motion), Detectors.OnVehicle(v));
      if t.vehicleId == v {
        Rebuild.LiveProjects(log, v);
        WatchedNext(Rebuild.OfVehicle(front, v), t);
      }
    }
  }

  lemma WatchedPoints(h: seq<Telemetry>)
    ensures Detectors.Points(Watched(h)) == h
  {
  }

  /** The tracks before point `n` of a stream, over the vehicle's accepted history. */
  lemma TracksBefore(env: Setup, xs: seq<Arrival>, n: nat, v: string)
    requires n <= |xs|
    ensures var c, cfg := CoreAfter(env, xs[..n]), env.detectors;
      var h := Rebuild.OfVehicle(c.log, v); var w := Watched(h);
      && SpeedBefore(c, v) == Detectors.SpeedTrackAt(h, |h|, cfg)
      && IdlingBefore(c, v) == Debounce.TrackAt(Detectors.IdleSamples(w), |h|, cfg.idleForSecs * SECOND)
      && TripBefore(c, v) == Detectors.TripAt(Detectors.Sightings(w), |h|, cfg)
  {
    var c := CoreAfter(env, xs[..n]);
    MemoryIsOfLog(env, xs, n);
    OwnInputs(c.log, v);
    WatchedPoints(Rebuild.OfVehicle(c.log, v));
    Detectors.TrackerProjects(Inputs(c.log), v, env.detectors);
  }

  /** The accepted history of the vehicle of arrival `n`, that point included. */
  ghost function HistoryAt(env: Setup, xs: seq<Arrival>, n: nat): (h: seq<Telemetry>)
    requires n < |xs|
  {
    Rebuild.OfVehicle(CoreAfter(env, xs[..n]).log, xs[n].t.vehicleId) + [xs[n].t]
  }

  /** The motion after an accepted point is the one its history leaves. */
  lemma MotionAt(env: Setup, xs: seq<Arrival>, n: nat)
    requires n < |xs|
    ensures NextState(CoreAfter(env, xs[..n]).states, xs[n].t) == Rebuild.ApplyAll(HistoryAt(env, xs, n))
  {
    StatesAreLive(env, xs[..n]);
    Rebuild.LiveProjects(CoreAfter(env, xs[..n]).log, xs[n].t.vehicleId);
    Rebuild.ApplyNext(Rebuild.OfVehicle(CoreAfter(env, xs[..n]).log, xs[n].t.vehicleId), xs[n].t);
  }

  /** What the detectors do at the last point of a history. */
  lemma LastSteps(h: seq<Telemetry>, t: Telemetry, cfg: Detectors.Config)
    ensures var all, w, n := h + [t], Watched(h + [t]), |h|; var motion := Rebuild.ApplyAll(all).motion;
      && Detectors.SpeedStep(Detectors.SpeedTrackAt(h, n, cfg), t, cfg).1 == Detectors.SpeedEdgeAt(all, n, cfg)
      && Debounce.Step(Debounce.TrackAt(Detectors.IdleSamples(Watched(h)), n, cfg.idleForSecs * SECOND),
                       Debounce.Sample(t.timestamp, motion == Idle), cfg.idleForSecs * SECOND).1
         == Debounce.EdgeAt(Detectors.IdleSamples(w), n, cfg.idleForSecs * SECOND)
      && Detectors.TripStep(Detectors.TripAt(Detectors.Sightings(Watched(h)), n, cfg), t, motion == Moving, cfg).1
         == Detectors.TripEventsAt(Detectors.Sightings(w), n, cfg)
  {
    WatchedNext(h, t);
    WatchedPoints(h);
    WatchedPoints(h + [t]);
    Detectors.HistoryPrefix(Watched(h), Detectors.Input(t, Rebuild.ApplyAll(h + [t]).motion), |h|, cfg);
  }

  lemma HistoryTimes(env: Setup, xs: seq<Arrival>, n: nat)
    requires n < |xs| && VerdictAt(env, xs, n).Accepted?
    ensures TimesSet(HistoryAt(env, xs, n))
  {
    StatesAreLive(env, xs[..n]);
    IngestOutline(env, CoreAfter(env, xs[..n]), xs[n]);
    Rebuild.OfVehicleMembers(CoreAfter(env, xs[..n]).log, xs[n].t.vehicleId);
  }

  /** In every stream, for every accepted point: its speeding events are exactly what the definition over the vehicle's
      accepted history says. */
  lemma SpeedingInStream(env: Setup, xs: seq<Arrival>, n: nat)
    requires n < |xs| && VerdictAt(env, xs, n).Accepted?
    ensures var h, es := HistoryAt(env, xs, n), Filter(Events(VerdictAt(env, xs, n)), IsSpeed());
      var edge := Detectors.SpeedSays(h, |h| - 1, env.detectors);
      if edge == Detectors.Quiet then es == [] else |es| == 1 && Detectors.TellsSpeed(es[0], edge, xs[n].t, env.detectors)
  {
    var c, t, h := CoreAfter(env, xs[..n]), xs[n].t, HistoryAt(env, xs, n);
    var p := KindsOfPoint(env, c, xs[n]);
    TracksBefore(env, xs, n, t.vehicleId);
    LastSteps(Rebuild.OfVehicle(c.log, t.vehicleId), t, env.detectors);
    HistoryTimes(env, xs, n);
    Detectors.SpeedingMeaning(h, |h| - 1, env.detectors);
    Detectors.SpeedEventsAreTrue(SpeedBefore(c, t.vehicleId), t, env.detectors);
  }

  /** What the idling detector is to say at the last sample. */
  ghost function IdlingSays(s: seq<Debounce.Sample>, hold: int): Debounce.Edge
    requires s != []
  {
    if Debounce.StartsAt(s, |s| - 1, hold) then Debounce.Started
    else if Debounce.EndsAt(s, |s| - 1, hold) then Debounce.Ended
    else Debounce.Quiet
  }

  /** And so are its idling events. */
  lemma IdlingInStream(env: Setup, xs: seq<Arrival>, n: nat)
    requires n < |xs| && VerdictAt(env, xs, n).Accepted?
    ensures var h, es := HistoryAt(env, xs, n), Filter(Events(VerdictAt(env, xs, n)), IsIdling());
      var edge := IdlingSays(Detectors.IdleSamples(Watched(h)), env.detectors.idleForSecs * SECOND);
      if edge == Debounce.Quiet then es == [] else |es| == 1 && Detectors.TellsIdling(es[0], edge, xs[n].t)
  {
    var c, t, h := CoreAfter(env, xs[..n]), xs[n].t, HistoryAt(env, xs, n);
    var samples, hold := Detectors.IdleSamples(Watched(h)), env.detectors.idleForSecs * SECOND;
    var p := KindsOfPoint(env, c, xs[n]);
    TracksBefore(env, xs, n, t.vehicleId);
    MotionAt(env, xs, n);
    LastSteps(Rebuild.OfVehicle(c.log, t.vehicleId), t, env.detectors);
    HistoryTimes(env, xs, n);
    SampleTimes(h);
    Debounce.DebounceMeaning(samples, |h| - 1, hold);
    Detectors.IdleEventsAreTrue(Debounce.EdgeAt(samples, |h| - 1, hold), t);
  }

  lemma SampleTimes(h: seq<Telemetry>)
    requires TimesSet(h)
    ensures Debounce.SampleTimesSet(Detectors.IdleSamples(Watched(h)))
  {
    forall i | 0 <= i < |h| ensures h[i].timestamp != 0 {
      assert h[i] in h;
    }
  }

  /** And so are its trip events. */
  lemma TripsInStream(env: Setup, xs: seq<Arrival>, n: nat)
    requires n < |xs| && VerdictAt(env, xs, n).Accepted?
    ensures var h, es := HistoryAt(env, xs, n), Filter(Events(VerdictAt(env, xs, n)), IsTrip());
      var says := Detectors.TripSays(Detectors.Sightings(Watched(h)), |h| - 1, env.detectors);
      |es| == |says| && forall k :: 0 <= k < |es| ==> Detectors.TellsTrip(es[k], says[k], xs[n].t)
  {
    var c, t, h := CoreAfter(env, xs[..n]), xs[n].t, HistoryAt(env, xs, n);
    var sightings := Detectors.Sightings(Watched(h));
    var p := KindsOfPoint(env, c, xs[n]);
    TracksBefore(env, xs, n, t.vehicleId);
    MotionAt(env, xs, n);
    LastSteps(Rebuild.OfVehicle(c.log, t.vehicleId), t, env.detectors);
    Detectors.TripMeaning(sightings, |h| - 1, env.detectors);
    TripEventsTold(Detectors.TripEventsAt(sightings, |h| - 1, env.detectors), t);
  }

  lemma TripEventsTold(says: seq<Detectors.TripEvent>, t: Telemetry)
    ensures var es := Detectors.TripEvents(says, t);
      |es| == |says| && forall k :: 0 <= k < |es| ==> Detectors.TellsTrip(es[k], says[k], t)
  {
    forall k | 0 <= k < |says| ensures |Detectors.TripEvents(says, t)| == |says| && Detectors.TellsTrip(Detectors.TripEvents(says, t)[k], says[k], t) {
      Detectors.TripEventsCarry(says, t, k);
    }
    if says == [] { assert Detectors.TripEvents(says, t) == []; }
  }

  // ---------------------------------------------------------------- rules

  /** What the rules are given at a point. */
  ghost function ContextOf(env: Setup, c: Core, x: Arrival): Rules.Context
    requires Ingest(env, c, x).1.Accepted?
  {
    Rules.Context(x.t, NextState(c.states, x.t), Ingest(env, c, x).1.derived, x.clock.rules)
  }

  lemma RuledOfPoint(env: Setup, c: Core, x: Arrival)
    requires Ingest(env, c, x).1.Accepted? && x.policy.rules.Some?
    ensures var v, o := Ingest(env, c, x).1, Rules.EvaluateIn(c.valves, x.policy.rules.value, x.order, ContextOf(env, c, x));
      v.ruled == o.events && v.triggers == o.triggers
  {
  }

  /** The rules see exactly the events of detectors and geofences, and every published rule has its say among the events
      of an accepted point: its matched events fire up to its quota, and their rule events and triggers are there. */
  lemma RulesOfPoint(env: Setup, c: Core, x: Arrival, k: string) returns (o: Rules.Outcome)
    requires Ingest(env, c, x).1.Accepted? && x.policy.rules.Some? && k in x.policy.rules.value
    requires Rules.WellKeyed(x.policy.rules.value) && Rules.Enumerates(x.order, x.policy.rules.value)
    ensures var v, context, spec := Ingest(env, c, x).1, ContextOf(env, c, x), x.policy.rules.value[k].spec;
      var matched := RuleMeaning.MatchedUpTo(spec, context, |context.evs|);
      && NoneOf(v.derived, IsRule()) && AllOf(v.ruled, IsRule()) && Events(v) == v.derived + v.ruled
      && RuleMeaning.FiredFirst(o, spec, context, matched, RuleMeaning.Min(|matched|,
           RuleMeaning.Quota(c.valves, Rules.VehicleKey(spec, context), spec, context.now)))
      && (forall e :: e in o.events ==> e in Events(v))
      && (forall tr :: tr in o.triggers ==> tr in v.triggers)
  {
    var v, context, rules := Ingest(env, c, x).1, ContextOf(env, c, x), x.policy.rules.value;
    EventsAreAboutTheirPoint(env, c, x);
    RuledOfPoint(env, c, x);
    RulesAreRules(c.valves, rules, x.order, context);
    DerivedIsNotRuled(env, c, x);
    RuleMeaning.EveryRuleHasItsSay(c.valves, rules, x.order, context, k);
    o := Rules.Alone(c.valves, rules, context, k);
  }

  lemma DerivedIsNotRuled(env: Setup, c: Core, x: Arrival)
    requires Ingest(env, c, x).1.Accepted?
    ensures NoneOf(Ingest(env, c, x).1.derived, IsRule())
  {
    var p := PartsOf(env, c, x);
    PartsAreSorted(p, env, c, x);
    DerivedParts(env, c, x, p);
    NotRules(p);
  }

  lemma NotRules(p: Parts)
    requires Sorted(p)
    ensures NoneOf(p.speed + p.idling + p.trip + p.fence, IsRule())
  {
  }

  lemma DerivedParts(env: Setup, c: Core, x: Arrival, p: Parts)
    requires Ingest(env, c, x).1.Accepted? && MadeBySteps(p, env, c, x)
    ensures Ingest(env, c, x).1.derived == p.speed + p.idling + p.trip + p.fence
  {
    IngestOutline(env, c, x);
  }
}
