/**
 The one processing path: validate, bound the future skew, dedup, log, fold
 state, detect, fence, rules, publish. Each call is one atomic step.
 */
module Pipeline {
  import opened Collections
  import opened Schemas
  import opened VehicleStates
  import StateStore
  import opened Polygon
  import GeoTracker
  import Detectors
  import Rules
  import Dedup
  import EventBus

  const MAX_FUTURE_SKEW := HOUR

  /** The three clock readings of one call. */
  datatype Clock = Clock(skew: int, dedup: int, rules: int)

  /** What a pipeline is built with, once. */
  datatype Setup = Setup(ttl: int, detectors: Detectors.Config)

  /** What its operators may change between calls: the fences and the published rules, when there are any. */
  datatype Policy = Policy(fences: Option<seq<Geofence>>, rules: Option<map<string, Rules.Rule>>)

  /** Everything a pipeline remembers. */
  datatype Core = Core(
    seen: map<string, int>, log: seq<Telemetry>, states: StateStore.States, memory: Detectors.Memory,
    members: GeoTracker.Members, valves: Rules.Valves)

  const FRESH := Core(map[], [], map[], Detectors.FRESH, map[], Rules.Valves(map[], map[]))

  datatype Verdict =
    | Rejected(error: string)
    | Duplicate
    | Accepted(derived: seq<Event>, ruled: seq<Event>, triggers: seq<Rules.Trigger>)

  /** `order` is the iteration order of the rules map in this call, and `policy` what is in force at it. */
  datatype Arrival = Arrival(t: Telemetry, clock: Clock, order: seq<string>, policy: Policy)

  ghost predicate OrderFits(policy: Policy, order: seq<string>) {
    policy.rules.Some? ==> Rules.Enumerates(order, policy.rules.value)
  }

  function Refusal(t: Telemetry, clock: Clock): (error: Option<string>) {
    if Validate(t).Some? then Validate(t)
    else if t.timestamp > clock.skew + MAX_FUTURE_SKEW then Some("timestamp too far in future")
    else None
  }

  function NextState(states: StateStore.States, t: Telemetry): VehicleState {
    Apply(StateStore.StateOf(states, t.vehicleId), t).0
  }

  ghost function Fenced(fences: Option<seq<Geofence>>, members: GeoTracker.Members, t: Telemetry)
    : (r: (GeoTracker.Members, seq<Event>))
  {
    if fences.None? then (members, [])
    else
      var (m, flips) := GeoTracker.EvaluateSpec(members, fences.value, t);
      (m, GeoTracker.FenceEvents(t, flips))
  }

  ghost function Ruled(policy: Policy, valves: Rules.Valves, order: seq<string>, x: Rules.Context): (o: Rules.Outcome) {
    if policy.rules.None? then Rules.Outcome(valves, [], []) else Rules.EvaluateIn(valves, policy.rules.value, order, x)
  }

  /** What a fresh point does: log, state, detectors, geofences, rules. */
  ghost function Absorb(env: Setup, c: Core, x: Arrival): (r: (Core, Verdict)) {
    var t := x.t;
    var next := NextState(c.states, t);
    var d := Detectors.DetectSpec(c.memory, env.detectors, t, next.motion);
    var f := Fenced(x.policy.fences, c.members, t);
    var derived := d.1 + f.1;
    var o := Ruled(x.policy, c.valves, x.order, Rules.Context(t, next, derived, x.clock.rules));
    (Core(c.seen, c.log + [t], c.states[t.vehicleId := next], d.0, f.0, o.valves),
     Accepted(derived, o.events, o.triggers))
  }

  lemma AbsorbedIs(env: Setup, c: Core, x: Arrival, next: VehicleState, d: (Detectors.Memory, seq<Event>),
                   f: (GeoTracker.Members, seq<Event>), o: Rules.Outcome)
    requires next == NextState(c.states, x.t)
    requires d == Detectors.DetectSpec(c.memory, env.detectors, x.t, next.motion) && f == Fenced(x.policy.fences, c.members, x.t)
    requires o == Ruled(x.policy, c.valves, x.order, Rules.Context(x.t, next, d.1 + f.1, x.clock.rules))
    ensures Absorb(env, c, x)
         == (Core(c.seen, c.log + [x.t], c.states[x.t.vehicleId := next], d.0, f.0, o.valves),
             Accepted(d.1 + f.1, o.events, o.triggers))
  {
  }

  /** One call of the pipeline, up to publishing. */
  ghost function Ingest(env: Setup, c: Core, x: Arrival): (r: (Core, Verdict)) {
    if Refusal(x.t, x.clock).Some? then (c, Rejected(Refusal(x.t, x.clock).value))
    else
      var (dup, seen) := Dedup.Check(c.seen, env.ttl, DedupKey(x.t), x.clock.dedup);
      if dup then (c, Duplicate) else Absorb(env, c.(seen := seen), x)
  }

  lemma FreshIsAbsorbed(env: Setup, c: Core, marked: Core, x: Arrival)
    requires Refusal(x.t, x.clock).None? && Dedup.Check(c.seen, env.ttl, DedupKey(x.t), x.clock.dedup) == (false, marked.seen)
    requires marked == c.(seen := marked.seen)
    ensures Ingest(env, c, x) == Absorb(env, marked, x)
    ensures Absorb(env, marked, x).1.Accepted?
  {
  }

  function Events(v: Verdict): (es: seq<Event>) {
    match v
    case Accepted(derived, ruled, _) => derived + ruled
    case _ => []
  }

  function TriggersOf(v: Verdict): (ts: seq<Rules.Trigger>) {
    if v.Accepted? then v.triggers else []
  }

  /** How many of the events go out before the first failure. */
  ghost function Delivered(outcomes: EventBus.Outcomes, n: nat, es: seq<Event>): (k: nat)
    ensures k <= |es|
    ensures forall i: nat :: i < k ==> outcomes(n + i, es[i]).None?
    ensures k < |es| ==> outcomes(n + k, es[k]).Some?
  {
    if es == [] then 0
    else
      var m := |es| - 1;
      var k := Delivered(outcomes, n, es[..m]);
      if k < m || outcomes(n + m, es[m]).Some? then k else |es|
  }

  class MemoryLog {
    var all: seq<Telemetry>

    constructor ()
      ensures all == []
    {
      all := [];
    }

    method Append(t: Telemetry)
      modifies this
      ensures all == old(all) + [t]
    {
      all := all + [t];
    }
  }

  datatype ProcessError = Refused(reason: string) | PublishError(events: seq<Event>, reason: string)

  /** How many publish calls that takes. */
  ghost function Attempts(outcomes: EventBus.Outcomes, n: nat, es: seq<Event>): nat {
    var k := Delivered(outcomes, n, es);
    if k == |es| then k else k + 1
  }

  /** What the caller hears of publishing: nothing, or all computed events together with the first failure. */
  ghost function Undelivered(outcomes: EventBus.Outcomes, n: nat, es: seq<Event>): Option<ProcessError> {
    var k := Delivered(outcomes, n, es);
    if k == |es| then None else Some(PublishError(es, outcomes(n + k, es[k]).value))
  }

  ghost function ErrorOf(v: Verdict, outcomes: EventBus.Outcomes, n: nat): Option<ProcessError> {
    if v.Rejected? then Some(Refused(v.error)) else Undelivered(outcomes, n, Events(v))
  }

  /** What one call leaves and answers; `sent` events went out in `attempts` publish calls. */
  datatype Reply = Reply(
    core: Core, events: seq<Event>, dup: bool, error: Option<ProcessError>, triggers: seq<Rules.Trigger>, sent: nat, attempts: nat)

  ghost function ReplyOf(c: Core, v: Verdict, outcomes: EventBus.Outcomes, n: nat): (r: Reply)
    ensures r.sent <= |r.events|
  {
    Reply(c, Events(v), v.Duplicate?, ErrorOf(v, outcomes, n), TriggersOf(v), Delivered(outcomes, n, Events(v)),
          Attempts(outcomes, n, Events(v)))
  }

  /** One whole call, against a bus that has seen `n` publish calls. */
  ghost function Answer(env: Setup, c: Core, x: Arrival, outcomes: EventBus.Outcomes, n: nat): (r: Reply)
    ensures r.sent <= |r.events|
  {
    var (c', v) := Ingest(env, c, x);
    ReplyOf(c', v, outcomes, n)
  }

  class Processor {
    const dedup: Dedup.MemoryStore
    const states: StateStore.MemoryStore
    const log: MemoryLog
    const bus: EventBus.Transport
    const detectors: Detectors.Tracker
    const geo: GeoTracker.Tracker?
    const rules: Rules.Engine?

    constructor (dedup: Dedup.MemoryStore, states: StateStore.MemoryStore, log: MemoryLog, bus: EventBus.Transport,
                 detectors: Detectors.Tracker, geo: GeoTracker.Tracker?, rules: Rules.Engine?)
      ensures this.dedup == dedup && this.states == states && this.log == log && this.bus == bus
      ensures this.detectors == detectors && this.geo == geo && this.rules == rules
    {
      this.dedup, this.states, this.log, this.bus := dedup, states, log, bus;
      this.detectors, this.geo, this.rules := detectors, geo, rules;
    }

    ghost function Env(): Setup {
      Setup(dedup.ttl, detectors.cfg)
    }

    ghost function InForce(): Policy
      reads geo, rules
    {
      Policy(if geo == null then None else Some(geo.fences), if rules == null then None else Some(rules.rules))
    }

    ghost function State(): Core
      reads dedup, states, log, detectors, geo, rules
    {
      Core(dedup.seen, log.all, states.m, detectors.Mem(), if geo == null then map[] else geo.members,
           if rules == null then Rules.Valves(map[], map[]) else rules.State())
    }

    method Process(t: Telemetry, clock: Clock, order: seq<string>)
      returns (evs: seq<Event>, dup: bool, error: Option<ProcessError>)
      requires OrderFits(InForce(), order)
      modifies dedup, states, log, bus, detectors, geo, rules
      ensures InForce() == old(InForce())
      ensures var r := Answer(Env(), old(State()), Arrival(t, clock, order, old(InForce())), bus.outcomes, old(bus.attempts));
        && State() == r.core && evs == r.events && dup == r.dup && error == r.error
        && (rules != null ==> rules.triggers == old(rules.triggers) + r.triggers)
        && bus.attempts == old(bus.attempts) + r.attempts
        && bus.delivered == old(bus.delivered) + evs[..r.sent]
    {
      evs, dup, error := [], false, None;
      Unchanged(bus.delivered);
      if Refusal(t, clock).Some? {
        error := Some(Refused(Refusal(t, clock).value));
        return;
      }
      dup := dedup.Seen(DedupKey(t), clock.dedup);
      if dup {
        return;
      }
      FreshIsAbsorbed(Env(), old(State()), State(), Arrival(t, clock, order, InForce()));
      evs, error := Accept(t, clock, order);
    }

    /** The path of a fresh point: compute, then publish. */
    method Accept(t: Telemetry, clock: Clock, order: seq<string>) returns (evs: seq<Event>, error: Option<ProcessError>)
      requires OrderFits(InForce(), order)
      modifies states, log, bus, detectors, geo, rules
      ensures InForce() == old(InForce())
      ensures var (c, v) := Absorb(Env(), old(State()), Arrival(t, clock, order, old(InForce())));
        && State() == c
        && evs == Events(v)
        && (rules != null ==> rules.triggers == old(rules.triggers) + TriggersOf(v))
        && error == ErrorOf(v, bus.outcomes, old(bus.attempts))
      ensures bus.attempts == old(bus.attempts) + Attempts(bus.outcomes, old(bus.attempts), evs)
      ensures bus.delivered == old(bus.delivered) + evs[..Delivered(bus.outcomes, old(bus.attempts), evs)]
    {
      evs := Compute(t, clock, order);
      error := PublishAll(evs);
    }

    /** From the log entry to the computed events. */
    method Compute(t: Telemetry, clock: Clock, order: seq<string>) returns (evs: seq<Event>)
      requires OrderFits(InForce(), order)
      modifies states, log, detectors, geo, rules
      ensures InForce() == old(InForce())
      ensures var (c, v) := Absorb(Env(), old(State()), Arrival(t, clock, order, old(InForce())));
        && State() == c
        && evs == Events(v)
        && (rules != null ==> rules.triggers == old(rules.triggers) + v.triggers)
    {
      ghost var c, x := State(), Arrival(t, clock, order, InForce());
      var next;
      next, evs := Derive(t);
      ghost var d, f := Detectors.DetectSpec(c.memory, Env().detectors, t, next.motion), Fenced(x.policy.fences, c.members, t);
      var context := Rules.Context(t, next, evs, clock.rules);
      ghost var o := Ruled(x.policy, c.valves, order, context);
      var more := EvaluateRules(order, context);
      AbsorbedIs(Env(), c, x, next, d, f, o);
      evs := evs + more;
    }

    /** Log, state, detectors and geofences. */
    method Derive(t: Telemetry) returns (next: VehicleState, evs: seq<Event>)
      modifies states, log, detectors, geo
      ensures InForce() == old(InForce())
      ensures next == NextState(old(states.m), t) && states.m == old(states.m)[t.vehicleId := next]
      ensures log.all == old(log.all) + [t]
      ensures var d := Detectors.DetectSpec(old(detectors.Mem()), detectors.cfg, t, next.motion);
        var f := Fenced(old(InForce()).fences, old(State()).members, t);
        detectors.Mem() == d.0 && State().members == f.0 && evs == d.1 + f.1
    {
      next := Record(t);
      evs := detectors.Detect(t, next);
      var more := EvaluateGeo(t);
      evs := evs + more;
    }

    /** Log the point and fold it into the state of its vehicle. */
    method Record(t: Telemetry) returns (next: VehicleState)
      modifies states, log
      ensures next == NextState(old(states.m), t) && states.m == old(states.m)[t.vehicleId := next]
      ensures log.all == old(log.all) + [t]
    {
      log.Append(t);
      var prev, _ := states.Get(t.vehicleId);
      next := Apply(prev, t).0;
      states.Set(next);
    }

    method EvaluateGeo(t: Telemetry) returns (out: seq<Event>)
      modifies geo
      ensures InForce() == old(InForce())
      ensures var r := Fenced(old(InForce()).fences, old(State()).members, t); State().members == r.0 && out == r.1
    {
      out := [];
      if geo != null {
        out := geo.Evaluate(t);
      }
    }

    method EvaluateRules(order: seq<string>, x: Rules.Context) returns (out: seq<Event>)
      requires OrderFits(InForce(), order)
      modifies rules
      ensures InForce() == old(InForce())
      ensures var o := Ruled(old(InForce()), old(if rules == null then Rules.Valves(map[], map[]) else rules.State()), order, x);
        && (if rules == null then Rules.Valves(map[], map[]) else rules.State()) == o.valves
        && out == o.events
        && (rules != null ==> rules.triggers == old(rules.triggers) + o.triggers)
    {
      out := [];
      if rules != null {
        out := rules.Evaluate(order, x);
      }
    }

    /** The publish loop: stops at the first failure and hands all computed events back. */
    method PublishAll(evs: seq<Event>) returns (error: Option<ProcessError>)
      modifies bus
      ensures bus.delivered == old(bus.delivered) + evs[..Delivered(bus.outcomes, old(bus.attempts), evs)]
      ensures bus.attempts == old(bus.attempts) + Attempts(bus.outcomes, old(bus.attempts), evs)
      ensures error == Undelivered(bus.outcomes, old(bus.attempts), evs)
    {
      ghost var k, n := Delivered(bus.outcomes, bus.attempts, evs), bus.attempts;
      for i := 0 to |evs|
        invariant i <= k
        invariant bus.attempts == n + i && bus.delivered == old(bus.delivered) + evs[..i]
      {
        var err := bus.Publish(evs[i]);
        if err.Some? {
          assert i == k;
          return Some(PublishError(evs, err.value));
        }
        NextPrefix(evs, i);
      }
      error := None;
    }
  }
}
