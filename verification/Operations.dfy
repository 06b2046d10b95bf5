/**
 The engine in operation: points arrive, the sweeper visits vehicles, heartbeats
 go out, operators replace fences and publish rules, and the bus fails as it
 likes. What all this leaves is the stream of the points alone, up to presence.
 */
module Operations {
  import opened Collections
  import opened Schemas
  import opened VehicleStates
  import opened StateStore
  import opened Pipeline
  import opened PipelineRuns
  import Polygon
  import Rebuild
  import Lateness
  import Detectors
  import Rules
  import EventBus

  datatype Action =
    | Arrive(t: Telemetry, clock: Clock, order: seq<string>)
    | Visit(id: string, now: int)
    | Beat(e: Event)
    | Refence(fences: seq<Polygon.Geofence>)
    | PublishRule(spec: Rules.Spec, at: int)

  /** `triggers` is the trace of the rules, `computed` the events of points, and `offered` everything handed to the bus,
      announcements and heartbeats included. */
  datatype World = World(
    core: Core, policy: Policy, triggers: seq<Rules.Trigger>, computed: seq<Event>, offered: seq<Event>,
    delivered: seq<Event>, attempts: nat)

  function Start(policy: Policy): World {
    World(FRESH, policy, [], [], [], [], 0)
  }

  /** The events are published one by one, up to the first failure. */
  ghost function Publish(w: World, es: seq<Event>, outcomes: EventBus.Outcomes): World {
    w.(offered := w.offered + es,
       delivered := w.delivered + es[..Delivered(outcomes, w.attempts, es)],
       attempts := w.attempts + Attempts(outcomes, w.attempts, es))
  }

  function Amend(policy: Policy, a: Action): Policy {
    match a
    case Refence(fences) => if policy.fences.None? then policy else policy.(fences := Some(fences))
    case PublishRule(spec, at) =>
      if policy.rules.None? then policy else policy.(rules := Some(Rules.PublishSpec(policy.rules.value, spec, at)))
    case _ => policy
  }

  function ArrivalOf(a: Action, policy: Policy): Arrival
    requires a.Arrive?
  {
    Arrival(a.t, a.clock, a.order, policy)
  }

  /** What the answer to a point leaves. */
  function Answered(w: World, r: Reply): World
    requires r.sent <= |r.events|
  {
    w.(core := r.core, triggers := w.triggers + r.triggers, computed := w.computed + r.events, offered := w.offered + r.events,
       delivered := w.delivered + r.events[..r.sent], attempts := w.attempts + r.attempts)
  }

  ghost function Act(env: Setup, w: World, a: Action, outcomes: EventBus.Outcomes): (w': World) {
    match a
    case Arrive(_, _, _) => Answered(w, Answer(env, w.core, ArrivalOf(a, w.policy), outcomes, w.attempts))
    case Visit(id, now) =>
      Publish(w.(core := w.core.(states := Visited(w.core.states, id, now))), VisitEvents(w.core.states, id, now), outcomes)
    case Beat(e) => Publish(w, [e], outcomes)
    case _ => w.(policy := Amend(w.policy, a))
  }

  ghost function Operated(env: Setup, w: World, actions: seq<Action>, outcomes: EventBus.Outcomes): (w': World) {
    if actions == [] then w
    else
      var n := |actions| - 1;
      Act(env, Operated(env, w, actions[..n], outcomes), actions[n], outcomes)
  }

  /** The policy in force after some actions. */
  function PolicyAfter(policy: Policy, actions: seq<Action>): Policy {
    if actions == [] then policy else Amend(PolicyAfter(policy, actions[..|actions| - 1]), actions[|actions| - 1])
  }

  /** The arrivals of a run, each with the policy in force at it. */
  function ArrivalsOf(policy: Policy, actions: seq<Action>): (xs: seq<Arrival>) {
    if actions == [] then []
    else
      var n := |actions| - 1;
      var xs := ArrivalsOf(policy, actions[..n]);
      if actions[n].Arrive? then xs + [ArrivalOf(actions[n], PolicyAfter(policy, actions[..n]))] else xs
  }

  // ---------------------------------------------------------------- the loop

  /** Every arrival iterates the rules that are in force at it. */
  ghost predicate OrdersFit(policy: Policy, actions: seq<Action>) {
    forall i :: 0 <= i < |actions| && actions[i].Arrive? ==> OrderFits(PolicyAfter(policy, actions[..i]), actions[i].order)
  }

  /** The world as a processor shows it. */
  ghost function WorldOf(p: Processor, computed: seq<Event>, offered: seq<Event>): World
    reads p.dedup, p.states, p.log, p.bus, p.detectors, p.geo, p.rules
  {
    World(p.State(), p.InForce(), if p.rules == null then [] else p.rules.triggers, computed, offered, p.bus.delivered,
          p.bus.attempts)
  }

  /** The engine goes on after every error: refused points, failed publishing, announcements and heartbeats alike. */
  method Operate(p: Processor, actions: seq<Action>) returns (computed: seq<Event>, ghost offered: seq<Event>)
    requires OrdersFit(p.InForce(), actions)
    modifies p.dedup, p.states, p.log, p.bus, p.detectors, p.geo, p.rules
    ensures WorldOf(p, computed, offered) == Operated(p.Env(), old(WorldOf(p, [], [])), actions, p.bus.outcomes)
  {
    computed, offered := [], [];
    ghost var w0 := WorldOf(p, [], []);
    for i := 0 to |actions|
      invariant WorldOf(p, computed, offered) == Operated(p.Env(), w0, actions[..i], p.bus.outcomes)
    {
      OperatedNext(p.Env(), w0, actions, i, p.bus.outcomes);
      PolicyOfWorld(p.Env(), w0, actions[..i], p.bus.outcomes);
      computed, offered := Perform(p, actions[i], computed, offered);
    }
    WholePrefix(actions);
  }

  method Perform(p: Processor, a: Action, computed: seq<Event>, ghost offered: seq<Event>)
    returns (computed': seq<Event>, ghost offered': seq<Event>)
    requires a.Arrive? ==> OrderFits(p.InForce(), a.order)
    modifies p.dedup, p.states, p.log, p.bus, p.detectors, p.geo, p.rules
    ensures WorldOf(p, computed', offered') == Act(p.Env(), old(WorldOf(p, computed, offered)), a, p.bus.outcomes)
  {
    computed', offered' := computed, offered;
    match a
    case Arrive(_, _, _) =>
      var evs := PerformArrival(p, a, computed, offered);
      computed', offered' := computed + evs, offered + evs;
    case Visit(_, _) =>
      var evs := PerformVisit(p, a, computed, offered);
      offered' := offered + evs;
    case Beat(e) =>
      var error := p.PublishAll([e]);
      offered' := offered + [e];
    case Refence(fences) =>
      if p.geo != null { p.geo.SetFences(fences); }
    case PublishRule(spec, at) =>
      if p.rules != null { var ok := p.rules.Publish(spec, at); }
  }

  /** An error of processing, of the point or of the bus, does not stop the engine. */
  method PerformArrival(p: Processor, a: Action, ghost computed: seq<Event>, ghost offered: seq<Event>) returns (evs: seq<Event>)
    requires a.Arrive? && OrderFits(p.InForce(), a.order)
    modifies p.dedup, p.states, p.log, p.bus, p.detectors, p.geo, p.rules
    ensures WorldOf(p, computed + evs, offered + evs) == Act(p.Env(), old(WorldOf(p, computed, offered)), a, p.bus.outcomes)
  {
    ghost var w := WorldOf(p, computed, offered);
    ghost var r := Answer(p.Env(), w.core, ArrivalOf(a, w.policy), p.bus.outcomes, w.attempts);
    NoRulesNoTriggers(p.Env(), w.core, ArrivalOf(a, w.policy), p.bus.outcomes, w.attempts);
    Unchanged(w.triggers);
    var dup, error;
    evs, dup, error := p.Process(a.t, a.clock, a.order);
    assert WorldOf(p, computed + evs, offered + evs) == Answered(w, r);
  }

  lemma NoRulesNoTriggers(env: Setup, c: Core, x: Arrival, outcomes: EventBus.Outcomes, n: nat)
    ensures x.policy.rules.None? ==> Answer(env, c, x, outcomes, n).triggers == []
  {
  }

  /** Nor does a failed announcement. */
  method PerformVisit(p: Processor, a: Action, ghost computed: seq<Event>, ghost offered: seq<Event>) returns (evs: seq<Event>)
    requires a.Visit?
    modifies p.states, p.bus
    ensures WorldOf(p, computed, offered + evs) == Act(p.Env(), old(WorldOf(p, computed, offered)), a, p.bus.outcomes)
  {
    ghost var w := WorldOf(p, computed, offered);
    evs := SweepOne(p.states, a.id, a.now);
    var error := p.PublishAll(evs);
    assert p.State() == w.core.(states := Visited(w.core.states, a.id, a.now));
  }

  lemma OperatedNext(env: Setup, w: World, actions: seq<Action>, i: nat, outcomes: EventBus.Outcomes)
    requires i < |actions|
    ensures Operated(env, w, actions[..i + 1], outcomes) == Act(env, Operated(env, w, actions[..i], outcomes), actions[i], outcomes)
  {
    NextPrefix(actions, i);
  }

  lemma {:induction false} PolicyOfWorld(env: Setup, w: World, actions: seq<Action>, outcomes: EventBus.Outcomes)
    ensures Operated(env, w, actions, outcomes).policy == PolicyAfter(w.policy, actions)
  {
    if actions != [] { PolicyOfWorld(env, w, actions[..|actions| - 1], outcomes); }
  }

  // ---------------------------------------------------------------- up to presence

  /** The same vehicles in the same states, presence aside. */
  ghost predicate SameButPresence(m: States, n: States) {
    && m.Keys == n.Keys
    && forall id :: id in m ==> m[id].(presence := Online) == n[id].(presence := Online)
  }

  /** Two cores that differ in nothing but presence. */
  ghost predicate Twins(c: Core, d: Core) {
    c == d.(states := c.states) && SameButPresence(c.states, d.states)
  }

  lemma ApplyAlike(s: VehicleState, r: VehicleState, t: Telemetry)
    requires s.(presence := Online) == r.(presence := Online)
    ensures Apply(s, t).0.(presence := Online) == Apply(r, t).0.(presence := Online)
  {
  }

  lemma NextAlike(m: States, n: States, t: Telemetry)
    requires SameButPresence(m, n)
    ensures NextState(m, t).(presence := Online) == NextState(n, t).(presence := Online)
    ensures SameButPresence(m[t.vehicleId := NextState(m, t)], n[t.vehicleId := NextState(n, t)])
  {
    ApplyAlike(StateOf(m, t.vehicleId), StateOf(n, t.vehicleId), t);
  }

  lemma AbsorbTwins(env: Setup, c: Core, d: Core, x: Arrival)
    requires Twins(c, d)
    ensures Twins(Absorb(env, c, x).0, Absorb(env, d, x).0) && Absorb(env, c, x).1 == Absorb(env, d, x).1
  {
    var s, r := NextState(c.states, x.t), NextState(d.states, x.t);
    NextAlike(c.states, d.states, x.t);
    assert s.motion == s.(presence := Online).motion == r.motion;
    assert s.speedKmh == s.(presence := Online).speedKmh == r.speedKmh;
    var derived := Detectors.DetectSpec(c.memory, env.detectors, x.t, s.motion).1 + Fenced(x.policy.fences, c.members, x.t).1;
    if x.policy.rules.Some? {
      Rules.EvaluationReadsSpeed(c.valves, x.policy.rules.value, x.order, Rules.Context(x.t, s, derived, x.clock.rules),
                                 Rules.Context(x.t, r, derived, x.clock.rules));
    }
  }

  lemma IngestTwins(env: Setup, c: Core, d: Core, x: Arrival)
    requires Twins(c, d)
    ensures Twins(Ingest(env, c, x).0, Ingest(env, d, x).0) && Ingest(env, c, x).1 == Ingest(env, d, x).1
  {
    IngestOutline(env, c, x);
    IngestOutline(env, d, x);
    var key, now := DedupKey(x.t), x.clock.dedup;
    if Ingest(env, c, x).1.Accepted? {
      var c1, d1 := c.(seen := c.seen[key := now]), d.(seen := d.seen[key := now]);
      FreshIsAbsorbed(env, c, c1, x);
      FreshIsAbsorbed(env, d, d1, x);
      AbsorbTwins(env, c1, d1, x);
    }
  }

  lemma VisitTwins(m: States, n: States, id: string, now: int)
    requires SameButPresence(m, n) && Keyed(m)
    ensures SameButPresence(Visited(m, id, now), n)
  {
  }

  lemma VisitKeyed(m: States, id: string, now: int)
    requires Keyed(m)
    ensures Keyed(Visited(m, id, now))
  {
  }

  lemma IngestKeyed(env: Setup, c: Core, x: Arrival)
    requires Keyed(c.states)
    ensures Keyed(Ingest(env, c, x).0.states)
  {
    IngestOutline(env, c, x);
  }

  /** Is `w` what the arrivals alone make of `c` and `computed`, up to presence? */
  ghost predicate Follows(w: World, c: Core, computed: seq<Event>) {
    Twins(w.core, c) && Keyed(w.core.states) && w.computed == computed
  }

  lemma ActFollows(env: Setup, w: World, a: Action, outcomes: EventBus.Outcomes, c: Core, computed: seq<Event>)
    requires Follows(w, c, computed)
    ensures var w' := Act(env, w, a, outcomes);
      if a.Arrive? then
        var r := Ingest(env, c, ArrivalOf(a, w.policy));
        Follows(w', r.0, computed + Events(r.1))
      else Follows(w', c, computed)
  {
    match a
    case Arrive(_, _, _) =>
      IngestTwins(env, w.core, c, ArrivalOf(a, w.policy));
      IngestKeyed(env, w.core, ArrivalOf(a, w.policy));
    case Visit(id, now) =>
      VisitTwins(w.core.states, c.states, id, now);
      VisitKeyed(w.core.states, id, now);
    case _ =>
  }

  /** For every run of arrivals, sweep visits, heartbeats, fence updates and rule publications, and every pattern of bus failures:
      log, dedup, detector, geofence and rule memory and all computed events are those of the stream of arrivals
      alone, each under the policy in force at it, and hot state is too in every field but presence. */
  lemma {:induction false} OperationIsStream(env: Setup, policy: Policy, actions: seq<Action>, outcomes: EventBus.Outcomes)
    ensures var w, xs := Operated(env, Start(policy), actions, outcomes), ArrivalsOf(policy, actions);
      && Twins(w.core, CoreAfter(env, xs))
      && w.computed == Computed(env, xs)
    ensures Keyed(Operated(env, Start(policy), actions, outcomes).core.states)
  {
    if actions != [] {
      var n := |actions| - 1;
      var front, a := actions[..n], actions[n];
      OperationIsStream(env, policy, front, outcomes);
      PolicyOfWorld(env, Start(policy), front, outcomes);
      var w, xs := Operated(env, Start(policy), front, outcomes), ArrivalsOf(policy, front);
      ActFollows(env, w, a, outcomes, CoreAfter(env, xs), Computed(env, xs));
      if a.Arrive? {
        Append(env, xs, ArrivalOf(a, w.policy));
      }
    }
  }

  /** In every run hot state is the live fold of the log in every field but presence. */
  lemma HotStateIsLive(env: Setup, policy: Policy, actions: seq<Action>, outcomes: EventBus.Outcomes)
    ensures var c := Operated(env, Start(policy), actions, outcomes).core; SameButPresence(c.states, Rebuild.Live(c.log))
  {
    OperationIsStream(env, policy, actions, outcomes);
    StatesAreLive(env, ArrivalsOf(policy, actions));
  }

  // ---------------------------------------------------------------- hot state, point by point and visit by visit

  /** What the store sees of a run: the accepted points and the visits. */
  ghost function StoreSteps(env: Setup, policy: Policy, actions: seq<Action>, outcomes: EventBus.Outcomes): (steps: seq<FleetStep>) {
    if actions == [] then []
    else
      var n := |actions| - 1;
      var front := StoreSteps(env, policy, actions[..n], outcomes);
      match actions[n]
      case Arrive(t, _, _) =>
        var w := Operated(env, Start(policy), actions[..n], outcomes);
        if Ingest(env, w.core, ArrivalOf(actions[n], w.policy)).1.Accepted? then front + [Report(t)] else front
      case Visit(id, now) => front + [FleetStep.Visit(id, now)]
      case _ => front
  }

  /** The store after some steps, and the log they leave. */
  ghost predicate Stored(c: Core, steps: seq<FleetStep>) {
    c.states == FleetRun(steps) && c.log == Rebuild.Reports(steps) && TimesSet(c.log)
  }

  lemma StoredPoint(env: Setup, c: Core, x: Arrival, steps: seq<FleetStep>)
    ensures Stored(c, steps) ==>
      Stored(Ingest(env, c, x).0, if Ingest(env, c, x).1.Accepted? then steps + [Report(x.t)] else steps)
  {
    IngestOutline(env, c, x);
    Prefixed(steps, Report(x.t));
  }

  lemma StoredVisit(c: Core, id: string, now: int, steps: seq<FleetStep>)
    ensures Stored(c, steps) ==> Stored(c.(states := Visited(c.states, id, now)), steps + [FleetStep.Visit(id, now)])
  {
    Prefixed(steps, FleetStep.Visit(id, now));
    Unchanged(Rebuild.Reports(steps));
  }

  /** In every run hot state is the fleet run of the accepted points and the visits, and the log is its points. */
  lemma {:induction false} HotStateIsFleet(env: Setup, policy: Policy, actions: seq<Action>, outcomes: EventBus.Outcomes)
    ensures Stored(Operated(env, Start(policy), actions, outcomes).core, StoreSteps(env, policy, actions, outcomes))
  {
    if actions != [] {
      var n := |actions| - 1;
      var front := actions[..n];
      HotStateIsFleet(env, policy, front, outcomes);
      var w, steps := Operated(env, Start(policy), front, outcomes), StoreSteps(env, policy, front, outcomes);
      match actions[n]
      case Arrive(_, _, _) => StoredPoint(env, w.core, ArrivalOf(actions[n], w.policy), steps);
      case Visit(id, now) => StoredVisit(w.core, id, now, steps);
      case _ =>
    }
  }

  /** Losing hot state is harmless up to late data and presence: in every run, what RebuildFrom makes of the log agrees
      with the lost state of a vehicle on last-seen, position and speed, on an ignition that the newest point reports,
      on motion outside the band, and on all but presence when its points arrived in time order. Presence differs
      exactly when a sweep found the vehicle silent and no on-time point has come since. */
  lemma RebuildRestores(env: Setup, policy: Policy, actions: seq<Action>, outcomes: EventBus.Outcomes, v: string)
    ensures var c, noticed := Operated(env, Start(policy), actions, outcomes).core,
                              Noticed(StoreSteps(env, policy, actions, outcomes), v);
      var mine := Rebuild.OfVehicle(c.log, v);
      mine != [] ==>
        && v in c.states
        && Rebuild.Restores(c.states[v], Rebuild.Rebuilt(mine), mine)
        && (c.states[v].presence != Rebuild.Rebuilt(mine).presence <==> Silent(noticed, |noticed|))
  {
    var c, steps := Operated(env, Start(policy), actions, outcomes).core, StoreSteps(env, policy, actions, outcomes);
    HotStateIsFleet(env, policy, actions, outcomes);
    HotStateIsLive(env, policy, actions, outcomes);
    Rebuild.LiveProjects(c.log, v);
    if Rebuild.OfVehicle(c.log, v) != [] {
      Rebuild.LiveAgreesWithRebuilt(steps, v);
    }
  }

  /** Log by log: in every run, what RebuildFrom makes of the log is the lost state of a vehicle, presence aside, if and
      only if late points left no trace in it. */
  lemma RebuildIsExactIff(env: Setup, policy: Policy, actions: seq<Action>, outcomes: EventBus.Outcomes, v: string)
    ensures var c := Operated(env, Start(policy), actions, outcomes).core;
      var mine := Rebuild.OfVehicle(c.log, v);
      mine != [] ==>
        (StateOf(c.states, v).(presence := Online) == Rebuild.Rebuilt(mine) <==> Lateness.NoTrace(mine))
  {
    HotStateIsFleet(env, policy, actions, outcomes);
    var c, steps := Operated(env, Start(policy), actions, outcomes).core, StoreSteps(env, policy, actions, outcomes);
    if Rebuild.OfVehicle(c.log, v) != [] {
      Lateness.FleetIsRebuiltIff(steps, v);
    }
  }

  // ---------------------------------------------------------------- delivery

  ghost predicate NeverFails(outcomes: EventBus.Outcomes) {
    forall n: nat, e :: outcomes(n, e).None?
  }

  lemma NothingHeldBack(outcomes: EventBus.Outcomes, n: nat, es: seq<Event>)
    ensures NeverFails(outcomes) ==> es[..Delivered(outcomes, n, es)] == es
  {
    if NeverFails(outcomes) && Delivered(outcomes, n, es) < |es| {
      assert false;
    }
  }

  lemma PublishAllOfIt(w: World, es: seq<Event>, outcomes: EventBus.Outcomes)
    ensures NeverFails(outcomes) && w.delivered == w.offered ==>
      Publish(w, es, outcomes).delivered == Publish(w, es, outcomes).offered
  {
    NothingHeldBack(outcomes, w.attempts, es);
  }

  lemma AnswerSendsAll(env: Setup, c: Core, x: Arrival, outcomes: EventBus.Outcomes, n: nat)
    ensures var r := Answer(env, c, x, outcomes, n); NeverFails(outcomes) ==> r.events[..r.sent] == r.events
  {
    NothingHeldBack(outcomes, n, Events(Ingest(env, c, x).1));
  }

  /** Without failures everything handed to the bus is delivered, in order. */
  lemma {:induction false} AllIsDelivered(env: Setup, w: World, actions: seq<Action>, outcomes: EventBus.Outcomes)
    ensures NeverFails(outcomes) && w.delivered == w.offered ==>
      Operated(env, w, actions, outcomes).delivered == Operated(env, w, actions, outcomes).offered
  {
    if actions != [] {
      var n := |actions| - 1;
      AllIsDelivered(env, w, actions[..n], outcomes);
      var before := Operated(env, w, actions[..n], outcomes);
      match actions[n]
      case Arrive(_, _, _) =>
        AnswerSendsAll(env, before.core, ArrivalOf(actions[n], before.policy), outcomes, before.attempts);
      case Visit(id, now) =>
        PublishAllOfIt(before.(core := before.core.(states := Visited(before.core.states, id, now))),
                       VisitEvents(before.core.states, id, now), outcomes);
      case Beat(e) => PublishAllOfIt(before, [e], outcomes);
      case _ =>
    }
  }

  // ---------------------------------------------------------------- what is in force and what is offered

  /** The fences that were set last. */
  function LastRefence(actions: seq<Action>): Option<seq<Polygon.Geofence>> {
    if actions == [] then None
    else if actions[|actions| - 1].Refence? then Some(actions[|actions| - 1].fences)
    else LastRefence(actions[..|actions| - 1])
  }

  /** The fences in force are those set last; a rule is in force once it was published first under its key. */
  lemma {:induction false} PolicyMeaning(policy: Policy, actions: seq<Action>)
    ensures var after := PolicyAfter(policy, actions);
      && after.fences == (if policy.fences.None? || LastRefence(actions).None? then policy.fences else LastRefence(actions))
      && (after.rules.None? <==> policy.rules.None?)
      && (policy.rules.Some? ==> forall k :: k in policy.rules.value ==>
            k in after.rules.value && after.rules.value[k].spec == policy.rules.value[k].spec)
  {
    if actions != [] { PolicyMeaning(policy, actions[..|actions| - 1]); }
  }

  lemma PublishedIsInForce(policy: Policy, actions: seq<Action>, spec: Rules.Spec, at: int)
    requires policy.rules.Some?
    ensures var before, after := PolicyAfter(policy, actions).rules, PolicyAfter(policy, actions + [PublishRule(spec, at)]).rules;
      before.Some? && after.Some? &&
      var k := Rules.Key(spec.id, spec.version);
      if k in before.value && before.value[k].spec != spec then after == before
      else after.value == before.value[k := Rules.Rule(spec, at)]
  {
    Prefixed(actions, PublishRule(spec, at));
    PolicyMeaning(policy, actions);
  }

  /** The announcements of visits and the heartbeats of a run. */
  ghost function SideEvents(env: Setup, w: World, actions: seq<Action>, outcomes: EventBus.Outcomes): (es: seq<Event>) {
    if actions == [] then []
    else
      var n := |actions| - 1;
      SideEvents(env, w, actions[..n], outcomes) +
      match actions[n]
      case Visit(id, now) => VisitEvents(Operated(env, w, actions[..n], outcomes).core.states, id, now)
      case Beat(e) => [e]
      case _ => []
  }

  /** The bus is offered everything that was computed or announced, and nothing else. */
  lemma {:induction false} EverythingIsOffered(env: Setup, policy: Policy, actions: seq<Action>, outcomes: EventBus.Outcomes)
    ensures var w := Operated(env, Start(policy), actions, outcomes);
      multiset(w.offered) == multiset(w.computed) + multiset(SideEvents(env, Start(policy), actions, outcomes))
  {
    if actions != [] {
      EverythingIsOffered(env, policy, actions[..|actions| - 1], outcomes);
    }
  }
}
