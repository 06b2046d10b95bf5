/** What every computed event says about its point, and when the in-memory bus takes it. */
module ComputedEvents {
  import opened Schemas
  import opened VehicleStates
  import opened Pipeline
  import opened PipelineRuns
  import GeoTracker
  import Detectors
  import Rules
  import EventBus

  /** The event types of detectors and geofences. */
  const DERIVED_TYPES: set<string> := {
    "vehicle.speeding.started", "vehicle.speeding.continued", "vehicle.speeding.ended",
    "vehicle.idling.started", "vehicle.idling.ended", "vehicle.trip.started", "vehicle.trip.ended",
    "vehicle.geofence.entered", "vehicle.geofence.exited"}

  predicate IsTransition(eventType: string) {
    Suffix(eventType).Some? && Suffix(eventType).value in TRANSITION_SUFFIXES
  }

  /** Is the event about this point: its vehicle, tenant, event time and correlation? */
  predicate About(e: Event, t: Telemetry) {
    && e.vehicleId == t.vehicleId && e.tenantId == t.tenantId && e.timestamp == t.timestamp
    && e.correlationId == t.metadata.correlationId && e.schemaVersion == SCHEMA_VERSION && e.id != ""
  }

  ghost predicate AllAbout(es: seq<Event>, t: Telemetry) {
    forall e :: e in es ==> About(e, t)
  }

  ghost predicate AllDerived(es: seq<Event>, t: Telemetry) {
    forall e :: e in es ==> About(e, t) && e.eventType in DERIVED_TYPES
  }

  lemma {:induction false} SuffixAfterDot(noun: string, transition: string)
    requires '.' !in transition
    ensures Suffix(noun + "." + transition) == Some(transition)
  {
    var s := noun + "." + transition;
    if transition == "" {
      assert s[|s| - 1] == '.';
    } else {
      var n := |transition| - 1;
      assert transition[n] in transition && transition == transition[..n] + [transition[n]];
      assert s[..|s| - 1] == noun + "." + transition[..n];
      SuffixAfterDot(noun, transition[..n]);
    }
  }

  /** The text is a name, a dot and the suffix. */
  predicate EndsWith(s: string, suffix: string) {
    '.' !in suffix && |suffix| < |s| && s == s[..|s| - |suffix| - 1] + "." + suffix
  }

  lemma {:induction false} SuffixIsTail(s: string)
    ensures Suffix(s).Some? ==> EndsWith(s, Suffix(s).value)
  {
    if s != "" && Suffix(s).Some? {
      var n := |s| - 1;
      if s[n] == '.' {
        assert s == s[..n] + "." + "";
      } else {
        SuffixIsTail(s[..n]);
        var front := Suffix(s[..n]).value;
        assert s[..n][..n - |front| - 1] == s[..n - |front| - 1];
        assert s == s[..n] + [s[n]];
      }
    }
  }

  lemma SuffixMeaning(s: string, suffix: string)
    ensures Suffix(s) == Some(suffix) <==> EndsWith(s, suffix)
  {
    SuffixIsTail(s);
    if EndsWith(s, suffix) { SuffixAfterDot(s[..|s| - |suffix| - 1], suffix); }
  }

  predicate TransitionWord(w: string) {
    w == "started" || w == "continued" || w == "ended" || w == "entered" || w == "exited" || w == "created"
  }

  lemma TransitionsMeaning(s: string)
    ensures IsTransition(s) <==> exists w :: TransitionWord(w) && EndsWith(s, w)
  {
    forall w ensures Suffix(s) == Some(w) <==> EndsWith(s, w) {
      SuffixMeaning(s, w);
    }
    if IsTransition(s) { assert TransitionWord(Suffix(s).value) && EndsWith(s, Suffix(s).value); }
  }

  /** An event is valid exactly when its identity, time and correlation are there, its version is current, and its type
      is a name, a dot and a transition. */
  lemma ValidEventMeaning(e: Event)
    ensures ValidEvent(e) <==>
      && e.id != "" && e.tenantId != "" && e.vehicleId != "" && e.timestamp != 0 && e.correlationId != "" && e.schemaVersion == 1
      && exists w :: TransitionWord(w) && EndsWith(e.eventType, w)
  {
    TransitionsMeaning(e.eventType);
  }

  lemma Named(noun: string, transition: string, eventType: string)
    requires '.' !in transition && transition in TRANSITION_SUFFIXES && eventType == noun + "." + transition
    ensures IsTransition(eventType) && eventType != ""
  {
    SuffixAfterDot(noun, transition);
  }

  /** Derived event types end in a transition. */
  lemma DerivedTypesAreTransitions(eventType: string)
    requires eventType in DERIVED_TYPES
    ensures IsTransition(eventType) && eventType != ""
  {
    SpeedingTypes();
    OtherTypes();
  }

  lemma SpeedingTypes()
    ensures IsTransition("vehicle.speeding.started") && IsTransition("vehicle.speeding.continued")
    ensures IsTransition("vehicle.speeding.ended")
  {
    Named("vehicle.speeding", "started", "vehicle.speeding.started");
    Named("vehicle.speeding", "continued", "vehicle.speeding.continued");
    Named("vehicle.speeding", "ended", "vehicle.speeding.ended");
  }

  lemma OtherTypes()
    ensures IsTransition("vehicle.idling.started") && IsTransition("vehicle.idling.ended")
    ensures IsTransition("vehicle.trip.started") && IsTransition("vehicle.trip.ended")
    ensures IsTransition("vehicle.geofence.entered") && IsTransition("vehicle.geofence.exited")
  {
    Named("vehicle.idling", "started", "vehicle.idling.started");
    Named("vehicle.idling", "ended", "vehicle.idling.ended");
    Named("vehicle.trip", "started", "vehicle.trip.started");
    Named("vehicle.trip", "ended", "vehicle.trip.ended");
    Named("vehicle.geofence", "entered", "vehicle.geofence.entered");
    Named("vehicle.geofence", "exited", "vehicle.geofence.exited");
  }

  lemma {:induction false} FenceEventsDerived(t: Telemetry, flips: seq<GeoTracker.Observation>)
    ensures AllDerived(GeoTracker.FenceEvents(t, flips), t)
  {
    if flips != [] { FenceEventsDerived(t, flips[..|flips| - 1]); }
  }

  lemma {:induction false} TripEventsDerived(es: seq<Detectors.TripEvent>, t: Telemetry)
    ensures AllDerived(Detectors.TripEvents(es, t), t)
  {
    if es != [] { TripEventsDerived(es[1..], t); }
  }

  lemma DetectedAreDerived(m: Detectors.Memory, cfg: Detectors.Config, t: Telemetry, motion: Motion)
    ensures AllDerived(Detectors.DetectSpec(m, cfg, t, motion).1, t)
  {
    TripEventsDerived(Detectors.TripStep(Detectors.Lookup(m.trips, t.vehicleId, Detectors.NO_TRIP), t, motion == Moving, cfg).1, t);
  }

  lemma FencedAreDerived(policy: Policy, members: GeoTracker.Members, t: Telemetry)
    ensures AllDerived(Fenced(policy.fences, members, t).1, t)
  {
    if policy.fences.Some? {
      FenceEventsDerived(t, GeoTracker.EvaluateSpec(members, policy.fences.value, t).1);
    }
  }

  ghost predicate AllRuled(es: seq<Event>, t: Telemetry) {
    forall e :: e in es ==> About(e, t) && ValidEvent(e)
  }

  lemma {:induction false} RuleEventsRuled(v: Rules.Valves, spec: Rules.Spec, x: Rules.Context, n: nat)
    requires n <= |x.evs|
    ensures AllRuled(Rules.RuleRun(v, spec, x, n).events, x.t)
  {
    if n > 0 { RuleEventsRuled(v, spec, x, n - 1); }
  }

  lemma {:induction false} RulesEventsRuled(v: Rules.Valves, rules: map<string, Rules.Rule>, order: seq<string>, x: Rules.Context)
    ensures AllRuled(Rules.EvaluateIn(v, rules, order, x).events, x.t)
  {
    if order != [] {
      var n := |order| - 1;
      RulesEventsRuled(v, rules, order[..n], x);
      if order[n] in rules {
        RuleEventsRuled(Rules.EvaluateIn(v, rules, order[..n], x).valves, rules[order[n]].spec, x, |x.evs|);
      }
    }
  }

  /** Every event of a call names the vehicle, tenant, event time and correlation of its point; derived events have
      transition types, and rule events are valid. */
  lemma EventsAreAboutTheirPoint(env: Setup, c: Core, x: Arrival)
    ensures var v := Ingest(env, c, x).1;
      && AllAbout(Events(v), x.t)
      && (v.Accepted? ==> AllDerived(v.derived, x.t) && AllRuled(v.ruled, x.t))
  {
    IngestOutline(env, c, x);
    if Ingest(env, c, x).1.Accepted? {
      var next := NextState(c.states, x.t);
      DetectedAreDerived(c.memory, env.detectors, x.t, next.motion);
      FencedAreDerived(x.policy, c.members, x.t);
      if x.policy.rules.Some? {
        var d := Detectors.DetectSpec(c.memory, env.detectors, x.t, next.motion).1;
        RulesEventsRuled(c.valves, x.policy.rules.value, x.order,
                         Rules.Context(x.t, next, d + Fenced(x.policy.fences, c.members, x.t).1, x.clock.rules));
      }
    }
  }

  lemma DeliveredWhenValid(n: nat, es: seq<Event>)
    ensures Undelivered(EventBus.MemoryOutcomes(), n, es).None? <==> forall e :: e in es ==> ValidEvent(e)
  {
    var k := Delivered(EventBus.MemoryOutcomes(), n, es);
    if k < |es| {
      assert es[k] in es;
    }
  }

  /** The in-memory bus takes everything computed for a point exactly when the point carries a correlation id or
      nothing was computed: validation of points does not ask for one, validation of events does. */
  lemma InMemoryBusDeliversIff(env: Setup, c: Core, x: Arrival, n: nat)
    requires Ingest(env, c, x).1.Accepted?
    ensures var es := Events(Ingest(env, c, x).1);
      Undelivered(EventBus.MemoryOutcomes(), n, es).None? <==> x.t.metadata.correlationId != "" || es == []
  {
    var v := Ingest(env, c, x).1;
    IngestOutline(env, c, x);
    EventsAreAboutTheirPoint(env, c, x);
    DeliveredWhenValid(n, Events(v));
    if x.t.metadata.correlationId != "" {
      forall e | e in Events(v) ensures ValidEvent(e) {
        if e in v.derived { DerivedTypesAreTransitions(e.eventType); }
      }
    } else if Events(v) != [] {
      assert Events(v)[0] in Events(v);
    }
  }

  /** The failing family: the first point of a vehicle that moves, without a correlation id, is processed and its trip
      event is refused by the bus. */
  lemma MovingWithoutCorrelation(env: Setup, x: Arrival, n: nat)
    requires Refusal(x.t, x.clock).None? && x.t.metadata.correlationId == ""
    requires x.t.speedKmh.Some? && x.t.speedKmh.value > 5.0
    ensures var v := Ingest(env, FRESH, x).1;
      v.Accepted? && Undelivered(EventBus.MemoryOutcomes(), n, Events(v)).Some?
  {
    IngestOutline(env, FRESH, x);
    var next := NextState(FRESH.states, x.t);
    TripIsReported(FRESH.memory, env.detectors, x.t, next.motion);
    InMemoryBusDeliversIff(env, FRESH, x, n);
  }

  lemma TripIsReported(m: Detectors.Memory, cfg: Detectors.Config, t: Telemetry, motion: Motion)
    requires motion == Moving && t.vehicleId !in m.trips
    ensures Detectors.DetectSpec(m, cfg, t, motion).1 != []
  {
    var es := Detectors.TripStep(Detectors.NO_TRIP, t, true, cfg).1;
    assert es != [] && Detectors.TripEvents(es, t) != [];
  }

  // ---------------------------------------------------------------- replies

  /** A point is refused exactly when it is malformed or more than an hour ahead of the clock. */
  lemma RefusalMeaning(t: Telemetry, clock: Clock)
    ensures Refusal(t, clock).None? <==> WellFormed(t) && t.timestamp <= clock.skew + HOUR
    ensures !WellFormed(t) ==> Refusal(t, clock) == Validate(t)
    ensures WellFormed(t) && t.timestamp > clock.skew + HOUR ==> Refusal(t, clock) == Some("timestamp too far in future")
  {
  }

  /** The reply tells the truth: the reason of a refusal; or nothing, when every event went out; or all events with the
      reason of the first that did not, after one publish call for each before it and one for itself. */
  ghost predicate Honest(r: Reply, refusal: Option<string>, outcomes: EventBus.Outcomes, n: nat) {
    && r.sent <= |r.events| && (forall i: nat :: i < r.sent ==> outcomes(n + i, r.events[i]).None?)
    && (refusal.Some? ==> r.error == Some(Refused(refusal.value)) && r.events == [])
    && (refusal.None? && r.sent == |r.events| ==> r.error == None && r.attempts == r.sent)
    && (refusal.None? && r.sent < |r.events| ==>
          && outcomes(n + r.sent, r.events[r.sent]).Some? && r.attempts == r.sent + 1
          && r.error == Some(PublishError(r.events, outcomes(n + r.sent, r.events[r.sent]).value)))
  }

  lemma RepliesAreHonest(c: Core, v: Verdict, outcomes: EventBus.Outcomes, n: nat)
    ensures Honest(ReplyOf(c, v, outcomes, n), if v.Rejected? then Some(v.error) else None, outcomes, n)
  {
  }

  /** What the caller of a point hears; a refused or repeated point leaves everything as it was. */
  lemma ReplyMeaning(env: Setup, c: Core, x: Arrival, outcomes: EventBus.Outcomes, n: nat)
    ensures var r := Answer(env, c, x, outcomes, n);
      && Honest(r, Refusal(x.t, x.clock), outcomes, n)
      && (!(WellFormed(x.t) && x.t.timestamp <= x.clock.skew + HOUR) ==> Refusal(x.t, x.clock).Some? && r.core == c)
      && (WellFormed(x.t) && x.t.timestamp <= x.clock.skew + HOUR ==> Refusal(x.t, x.clock).None?)
      && (r.dup <==> Refusal(x.t, x.clock).None? && DedupKey(x.t) in c.seen && x.clock.dedup - c.seen[DedupKey(x.t)] < env.ttl)
      && (r.dup ==> r.core == c && r.events == [] && r.triggers == [])
  {
    RefusalMeaning(x.t, x.clock);
    IngestOutline(env, c, x);
    RepliesAreHonest(Ingest(env, c, x).0, Ingest(env, c, x).1, outcomes, n);
  }
}
