/**
 What the safety valves guarantee over whole runs of publishing and evaluating:
 hourly caps, cooldowns, and valves that can always be recovered from the trace.
 */
module RuleSafety {
  import opened Schemas
  import opened Rules
  import opened Collections

  datatype Op = Publish(spec: Spec, at: int) | Evaluate(order: seq<string>, x: Context)

  datatype Ledger = Ledger(rules: map<string, Rule>, valves: Valves, trace: seq<Trigger>, now: Option<int>)

  const EMPTY_LEDGER := Ledger(map[], Valves(map[], map[]), [], None)

  ghost function Next(l: Ledger, op: Op): (l': Ledger)
    requires op.Evaluate? ==> Enumerates(op.order, l.rules)
  {
    match op
    case Publish(spec, at) => l.(rules := PublishSpec(l.rules, spec, at))
    case Evaluate(order, x) =>
      var o := EvaluateIn(l.valves, l.rules, order, x);
      l.(valves := o.valves, trace := l.trace + o.triggers, now := Some(x.now))
  }

  /** A run: any mix of publishing and evaluating, in any iteration orders, with a clock that never goes backward. */
  ghost predicate Legal(ops: seq<Op>)
    decreases |ops|, 0
  {
    ops == [] ||
    var n := |ops| - 1;
    && Legal(ops[..n])
    && (ops[n].Evaluate? ==>
          && Enumerates(ops[n].order, Run(ops[..n]).rules)
          && (Run(ops[..n]).now.Some? ==> Run(ops[..n]).now.value <= ops[n].x.now))
  }

  ghost function Run(ops: seq<Op>): (l: Ledger)
    requires Legal(ops)
    decreases |ops|, 1
  {
    if ops == [] then EMPTY_LEDGER else Next(Run(ops[..|ops| - 1]), ops[|ops| - 1])
  }

  // ---------------------------------------------------------------- reading the trace

  function TriggerKey(tr: Trigger): string {
    ValveKey(tr.ruleId, tr.ruleVersion, tr.vehicleId)
  }

  /** The fire times under one valve key, oldest first. */
  function Times(trace: seq<Trigger>, key: string): (ts: seq<int>) {
    if trace == [] then []
    else
      var n := |trace| - 1;
      Times(trace[..n], key) + if TriggerKey(trace[n]) == key then [trace[n].at] else []
  }

  predicate IsFire(tr: Trigger, spec: Spec, vehicleId: string) {
    tr.ruleId == spec.id && tr.ruleVersion == spec.version && tr.vehicleId == vehicleId
  }

  /** How many fires of a rule version for a vehicle lie in (from, from + 1h]. */
  function FiresInHour(trace: seq<Trigger>, spec: Spec, vehicleId: string, from: int): nat {
    if trace == [] then 0
    else
      var n := |trace| - 1;
      FiresInHour(trace[..n], spec, vehicleId, from) +
      if IsFire(trace[n], spec, vehicleId) && from < trace[n].at <= from + HOUR then 1 else 0
  }

  lemma TimesNext(trace: seq<Trigger>, tr: Trigger, key: string)
    ensures Times(trace + [tr], key) == if TriggerKey(tr) == key then Times(trace, key) + [tr.at] else Times(trace, key)
  {
    Prefixed(trace, tr);
  }

  lemma FiresNext(trace: seq<Trigger>, tr: Trigger, spec: Spec, vehicleId: string, from: int)
    ensures FiresInHour(trace + [tr], spec, vehicleId, from)
         == FiresInHour(trace, spec, vehicleId, from) +
            if IsFire(tr, spec, vehicleId) && from < tr.at <= from + HOUR then 1 else 0
  {
    Prefixed(trace, tr);
  }

  lemma {:induction false} AfterAfter(times: seq<int>, cut: int, later: int)
    requires cut <= later
    ensures After(After(times, cut), later) == After(times, later)
    ensures |After(times, later)| <= |After(times, cut)|
  {
    if times != [] {
      var n := |times| - 1;
      assert times == times[..n] + [times[n]];
      AfterAfter(times[..n], cut, later);
      AfterNext(times[..n], times[n], cut);
      AfterNext(times[..n], times[n], later);
      AfterNext(After(times[..n], cut), times[n], later);
    }
  }

  /** A window's fires are among the times after its start. */
  lemma {:induction false} FiresBounded(trace: seq<Trigger>, spec: Spec, vehicleId: string, from: int)
    ensures FiresInHour(trace, spec, vehicleId, from)
         <= |After(Times(trace, ValveKey(spec.id, spec.version, vehicleId)), from)|
  {
    if trace != [] {
      var n, key := |trace| - 1, ValveKey(spec.id, spec.version, vehicleId);
      assert trace == trace[..n] + [trace[n]];
      FiresBounded(trace[..n], spec, vehicleId, from);
      TimesNext(trace[..n], trace[n], key);
      AfterNext(Times(trace[..n], key), trace[n].at, from);
    }
  }

  // ---------------------------------------------------------------- the invariant

  function LastOf(v: Valves, key: string): Option<int> {
    if key in v.lastFire then Some(v.lastFire[key]) else None
  }

  /** The last fire and the recent fires are those of the full list of times. */
  ghost predicate Recalls(last: Option<int>, recent: seq<int>, times: seq<int>, now: int) {
    && (last.Some? <==> times != [])
    && (times != [] ==> last == Some(times[|times| - 1]))
    && forall cut :: now - HOUR <= cut ==> After(recent, cut) == After(times, cut)
  }

  /** Pruning has lost nothing: last fire and recent fires are what the trace says. */
  ghost predicate Recoverable(v: Valves, trace: seq<Trigger>, key: string, now: int) {
    Recalls(LastOf(v, key), LogOf(v, key), Times(trace, key), now)
  }

  ghost predicate FromPublished(rules: map<string, Rule>, tr: Trigger) {
    var k := Key(tr.ruleId, tr.ruleVersion);
    k in rules && rules[k].spec.id == tr.ruleId && rules[k].spec.version == tr.ruleVersion
  }

  /** At most MaxActionsPerHour fires in every hour. */
  ghost predicate Capped(trace: seq<Trigger>, spec: Spec, vehicleId: string) {
    forall from :: FiresInHour(trace, spec, vehicleId, from) <= if spec.maxActionsPerHour > 0 then spec.maxActionsPerHour else 0
  }

  /** Fires at least CooldownSecs apart. */
  ghost predicate Cooled(trace: seq<Trigger>, spec: Spec, vehicleId: string) {
    spec.cooldownSecs > 0 ==>
      forall i, j :: 0 <= i < j < |trace| && IsFire(trace[i], spec, vehicleId) && IsFire(trace[j], spec, vehicleId) ==>
        trace[j].at - trace[i].at >= spec.cooldownSecs * SECOND
  }

  ghost predicate TraceKept(v: Valves, trace: seq<Trigger>, now: int) {
    && (forall key :: Recoverable(v, trace, key, now))
    && (forall i :: 0 <= i < |trace| ==> trace[i].at <= now)
    && (forall i :: 0 <= i < |trace| ==>
          TriggerKey(trace[i]) in v.lastFire && trace[i].at <= v.lastFire[TriggerKey(trace[i])])
  }

  ghost predicate Safe(rules: map<string, Rule>, trace: seq<Trigger>) {
    && (forall i :: 0 <= i < |trace| ==> FromPublished(rules, trace[i]))
    && (forall k, vehicleId :: k in rules ==> Capped(trace, rules[k].spec, vehicleId) && Cooled(trace, rules[k].spec, vehicleId))
  }

  /** The decision from the full trace, with no valves at all. */
  ghost predicate TraceAllows(trace: seq<Trigger>, key: string, spec: Spec, now: int) {
    var times := Times(trace, key);
    && (spec.cooldownSecs > 0 && times != [] ==> now - times[|times| - 1] >= spec.cooldownSecs * SECOND)
    && |After(times, now - HOUR)| < spec.maxActionsPerHour
  }

  /** The valves decide exactly as the full trace would. */
  lemma ValvesRefineTrace(v: Valves, trace: seq<Trigger>, key: string, spec: Spec, now: int)
    requires Recoverable(v, trace, key, now)
    ensures ValveStep(v, key, spec, now).0 <==> TraceAllows(trace, key, spec, now)
  {
    assert After(LogOf(v, key), now - HOUR) == After(Times(trace, key), now - HOUR);
  }

  // ---------------------------------------------------------------- what steps keep

  lemma LaterClock(v: Valves, trace: seq<Trigger>, now: int, later: int)
    requires TraceKept(v, trace, now) && now <= later
    ensures TraceKept(v, trace, later)
  {
    forall key ensures Recoverable(v, trace, key, later) {
      assert Recoverable(v, trace, key, now);
    }
  }

  lemma RecallsPruned(last: Option<int>, recent: seq<int>, times: seq<int>, now: int)
    requires Recalls(last, recent, times, now)
    ensures Recalls(last, After(recent, now - HOUR), times, now)
  {
    forall cut | now - HOUR <= cut ensures After(After(recent, now - HOUR), cut) == After(times, cut) {
      AfterAfter(recent, now - HOUR, cut);
    }
  }

  lemma RecallsFire(last: Option<int>, recent: seq<int>, times: seq<int>, now: int)
    requires Recalls(last, recent, times, now)
    ensures Recalls(Some(now), recent + [now], times + [now], now)
  {
    forall cut | now - HOUR <= cut ensures After(recent + [now], cut) == After(times + [now], cut) {
      AfterNext(recent, now, cut);
      AfterNext(times, now, cut);
    }
  }

  lemma PruneKeeps(v: Valves, trace: seq<Trigger>, key: string, now: int)
    requires TraceKept(v, trace, now)
    ensures TraceKept(v.(fireLog := v.fireLog[key := After(LogOf(v, key), now - HOUR)]), trace, now)
  {
    var v' := v.(fireLog := v.fireLog[key := After(LogOf(v, key), now - HOUR)]);
    forall key' ensures Recoverable(v', trace, key', now) {
      assert Recoverable(v, trace, key', now);
      RecallsPruned(LastOf(v, key'), LogOf(v, key'), Times(trace, key'), now);
    }
  }

  function Fired(v: Valves, tr: Trigger): Valves {
    var key := TriggerKey(tr);
    Valves(v.lastFire[key := tr.at], v.fireLog[key := LogOf(v, key) + [tr.at]])
  }

  lemma FireRecoverable(v: Valves, trace: seq<Trigger>, tr: Trigger, key: string)
    requires Recoverable(v, trace, key, tr.at)
    ensures Recoverable(Fired(v, tr), trace + [tr], key, tr.at)
  {
    TimesNext(trace, tr, key);
    RecallsFire(LastOf(v, key), LogOf(v, key), Times(trace, key), tr.at);
  }

  lemma FireKeeps(v: Valves, trace: seq<Trigger>, tr: Trigger)
    requires TraceKept(v, trace, tr.at)
    ensures TraceKept(Fired(v, tr), trace + [tr], tr.at)
  {
    forall key ensures Recoverable(Fired(v, tr), trace + [tr], key, tr.at) {
      FireRecoverable(v, trace, tr, key);
    }
  }

  /** A fire that the trace allows keeps cap and cooldown of its own rule version and vehicle. */
  lemma FireIsSafe(v: Valves, trace: seq<Trigger>, tr: Trigger, spec: Spec)
    requires TraceKept(v, trace, tr.at) && IsFire(tr, spec, tr.vehicleId)
    requires TraceAllows(trace, TriggerKey(tr), spec, tr.at)
    requires Capped(trace, spec, tr.vehicleId) && Cooled(trace, spec, tr.vehicleId)
    ensures Capped(trace + [tr], spec, tr.vehicleId) && Cooled(trace + [tr], spec, tr.vehicleId)
  {
    var key, now := TriggerKey(tr), tr.at;
    assert Recoverable(v, trace, key, now);
    forall from
      ensures FiresInHour(trace + [tr], spec, tr.vehicleId, from)
           <= if spec.maxActionsPerHour > 0 then spec.maxActionsPerHour else 0
    {
      FiresNext(trace, tr, spec, tr.vehicleId, from);
      if from < now <= from + HOUR {
        FiresBounded(trace, spec, tr.vehicleId, from);
        AfterAfter(Times(trace, key), now - HOUR, from);
      }
    }
    forall i | 0 <= i < |trace| && IsFire(trace[i], spec, tr.vehicleId) && spec.cooldownSecs > 0
      ensures now - trace[i].at >= spec.cooldownSecs * SECOND
    {
      assert TriggerKey(trace[i]) == key;
    }
  }

  lemma OtherFire(trace: seq<Trigger>, tr: Trigger, spec: Spec, vehicleId: string)
    requires !IsFire(tr, spec, vehicleId)
    requires Capped(trace, spec, vehicleId) && Cooled(trace, spec, vehicleId)
    ensures Capped(trace + [tr], spec, vehicleId) && Cooled(trace + [tr], spec, vehicleId)
  {
    forall from
      ensures FiresInHour(trace + [tr], spec, vehicleId, from)
           <= if spec.maxActionsPerHour > 0 then spec.maxActionsPerHour else 0
    {
      FiresNext(trace, tr, spec, vehicleId, from);
    }
  }

  lemma SafeFire(rules: map<string, Rule>, v: Valves, trace: seq<Trigger>, tr: Trigger, spec: Spec)
    requires WellKeyed(rules) && Safe(rules, trace) && TraceKept(v, trace, tr.at)
    requires Key(spec.id, spec.version) in rules && rules[Key(spec.id, spec.version)].spec == spec
    requires IsFire(tr, spec, tr.vehicleId) && TraceAllows(trace, TriggerKey(tr), spec, tr.at)
    ensures Safe(rules, trace + [tr])
  {
    forall k, vehicleId | k in rules
      ensures Capped(trace + [tr], rules[k].spec, vehicleId) && Cooled(trace + [tr], rules[k].spec, vehicleId)
    {
      if IsFire(tr, rules[k].spec, vehicleId) {
        assert k == Key(spec.id, spec.version);
        FireIsSafe(v, trace, tr, spec);
      } else {
        OtherFire(trace, tr, rules[k].spec, vehicleId);
      }
    }
  }

  // ---------------------------------------------------------------- one evaluation

  ghost predicate Kept(rules: map<string, Rule>, v: Valves, trace: seq<Trigger>, now: int) {
    TraceKept(v, trace, now) && Safe(rules, trace)
  }

  lemma ValveKeepsTrace(v: Valves, trace: seq<Trigger>, spec: Spec, tr: Trigger)
    requires TraceKept(v, trace, tr.at)
    ensures var (fires, v') := ValveStep(v, TriggerKey(tr), spec, tr.at); TraceKept(v', if fires then trace + [tr] else trace, tr.at)
  {
    var key, now := TriggerKey(tr), tr.at;
    var recent := After(LogOf(v, key), now - HOUR);
    PruneKeeps(v, trace, key, now);
    if ValveStep(v, key, spec, now).0 {
      FireKeeps(v.(fireLog := v.fireLog[key := recent]), trace, tr);
      Overwritten(v.fireLog, key, recent, recent + [now]);
    }
  }

  lemma ValveKeepsSafe(rules: map<string, Rule>, v: Valves, trace: seq<Trigger>, spec: Spec, tr: Trigger)
    requires WellKeyed(rules) && Kept(rules, v, trace, tr.at) && IsFire(tr, spec, tr.vehicleId)
    requires Key(spec.id, spec.version) in rules && rules[Key(spec.id, spec.version)].spec == spec
    ensures Safe(rules, if ValveStep(v, TriggerKey(tr), spec, tr.at).0 then trace + [tr] else trace)
  {
    if ValveStep(v, TriggerKey(tr), spec, tr.at).0 {
      assert Recoverable(v, trace, TriggerKey(tr), tr.at);
      ValvesRefineTrace(v, trace, TriggerKey(tr), spec, tr.at);
      SafeFire(rules, v, trace, tr, spec);
    }
  }

  lemma ValveKeeps(rules: map<string, Rule>, v: Valves, trace: seq<Trigger>, spec: Spec, tr: Trigger)
    requires WellKeyed(rules) && Kept(rules, v, trace, tr.at) && IsFire(tr, spec, tr.vehicleId)
    requires Key(spec.id, spec.version) in rules && rules[Key(spec.id, spec.version)].spec == spec
    ensures var (fires, v') := ValveStep(v, TriggerKey(tr), spec, tr.at);
      Kept(rules, v', if fires then trace + [tr] else trace, tr.at)
  {
    ValveKeepsTrace(v, trace, spec, tr);
    ValveKeepsSafe(rules, v, trace, spec, tr);
  }

  lemma EventKeeps(rules: map<string, Rule>, v: Valves, trace: seq<Trigger>, spec: Spec, ev: Event, x: Context)
    requires WellKeyed(rules) && Kept(rules, v, trace, x.now)
    requires Key(spec.id, spec.version) in rules && rules[Key(spec.id, spec.version)].spec == spec
    ensures var o := EventStep(v, spec, ev, x); Kept(rules, o.valves, trace + o.triggers, x.now)
  {
    var tr := TriggerOf(spec, ev, x.t, x.s, x.now);
    ValveKeeps(rules, v, trace, spec, tr);
    assert TriggerKey(tr) == VehicleKey(spec, x);
    Unchanged(trace);
  }

  lemma KeptJoined(rules: map<string, Rule>, v: Valves, trace: seq<Trigger>, a: seq<Trigger>, b: seq<Trigger>, now: int)
    requires Kept(rules, v, trace + a + b, now)
    ensures Kept(rules, v, trace + (a + b), now)
  {
    Joined(trace, a, b);
  }

  lemma {:induction false} RuleKeeps(rules: map<string, Rule>, v: Valves, trace: seq<Trigger>, spec: Spec, x: Context, n: nat)
    requires WellKeyed(rules) && Kept(rules, v, trace, x.now) && n <= |x.evs|
    requires Key(spec.id, spec.version) in rules && rules[Key(spec.id, spec.version)].spec == spec
    ensures var o := RuleRun(v, spec, x, n); Kept(rules, o.valves, trace + o.triggers, x.now)
  {
    if n == 0 {
      Unchanged(trace);
    } else {
      RuleKeeps(rules, v, trace, spec, x, n - 1);
      var o := RuleRun(v, spec, x, n - 1);
      EventKeeps(rules, o.valves, trace + o.triggers, spec, x.evs[n - 1], x);
      var o' := EventStep(o.valves, spec, x.evs[n - 1], x);
      assert RuleRun(v, spec, x, n) == Then(o, o');
      KeptJoined(rules, o'.valves, trace, o.triggers, o'.triggers, x.now);
    }
  }

  lemma {:induction false} EvaluateKeeps(rules: map<string, Rule>, v: Valves, trace: seq<Trigger>, order: seq<string>, r: nat, x: Context)
    requires WellKeyed(rules) && Kept(rules, v, trace, x.now) && r <= |order|
    requires forall k :: k in order ==> k in rules
    ensures var o := EvaluateIn(v, rules, order[..r], x); Kept(rules, o.valves, trace + o.triggers, x.now)
  {
    if r == 0 {
      Unchanged(trace);
    } else {
      EvaluateKeeps(rules, v, trace, order, r - 1, x);
      EvaluateNext(v, rules, order, r - 1, x);
      var o, spec := EvaluateIn(v, rules, order[..r - 1], x), rules[order[r - 1]].spec;
      RuleKeeps(rules, o.valves, trace + o.triggers, spec, x, |x.evs|);
      var o' := RuleRun(o.valves, spec, x, |x.evs|);
      KeptJoined(rules, o'.valves, trace, o.triggers, o'.triggers, x.now);
    }
  }

  // ---------------------------------------------------------------- every run

  lemma {:induction false} NoFires(trace: seq<Trigger>, spec: Spec, vehicleId: string)
    requires forall i :: 0 <= i < |trace| ==> !IsFire(trace[i], spec, vehicleId)
    ensures Capped(trace, spec, vehicleId) && Cooled(trace, spec, vehicleId)
  {
    if trace == [] {
      assert forall from :: FiresInHour(trace, spec, vehicleId, from) == 0;
    } else {
      var n := |trace| - 1;
      NoFires(trace[..n], spec, vehicleId);
      assert trace == trace[..n] + [trace[n]];
      OtherFire(trace[..n], trace[n], spec, vehicleId);
    }
  }

  lemma PublishKeeps(rules: map<string, Rule>, trace: seq<Trigger>, spec: Spec, at: int)
    requires WellKeyed(rules) && Safe(rules, trace)
    ensures WellKeyed(PublishSpec(rules, spec, at)) && Safe(PublishSpec(rules, spec, at), trace)
  {
    var k, rules' := Key(spec.id, spec.version), PublishSpec(rules, spec, at);
    if CanPublish(rules, spec) && k !in rules {
      forall vehicleId ensures Capped(trace, spec, vehicleId) && Cooled(trace, spec, vehicleId) {
        forall i | 0 <= i < |trace| ensures !IsFire(trace[i], spec, vehicleId) {
          assert FromPublished(rules, trace[i]);
        }
        NoFires(trace, spec, vehicleId);
      }
    }
    forall i | 0 <= i < |trace| ensures FromPublished(rules', trace[i]) {
      assert FromPublished(rules, trace[i]);
    }
  }

  /** In every run every hour holds at most MaxActionsPerHour fires of a rule version for a vehicle, fires keep their
      cooldown, and the valves are recoverable from the trace. */
  lemma {:induction false} ValvesHold(ops: seq<Op>)
    requires Legal(ops)
    ensures var l := Run(ops);
      && WellKeyed(l.rules)
      && Safe(l.rules, l.trace)
      && (l.now.Some? ==> TraceKept(l.valves, l.trace, l.now.value))
      && (l.now.None? ==> l.valves == Valves(map[], map[]) && l.trace == [])
  {
    if ops != [] {
      var n := |ops| - 1;
      ValvesHold(ops[..n]);
      var l := Run(ops[..n]);
      match ops[n]
      case Publish(spec, at) => PublishKeeps(l.rules, l.trace, spec, at);
      case Evaluate(order, x) =>
        if l.now.Some? {
          LaterClock(l.valves, l.trace, l.now.value, x.now);
        } else {
          forall key ensures Recoverable(l.valves, l.trace, key, x.now) {
            assert Times(l.trace, key) == [];
          }
        }
        EvaluateKeeps(l.rules, l.valves, l.trace, order, |order|, x);
        WholePrefix(order);
    }
  }

  /** A published spec never changes, whatever is published or evaluated afterwards. */
  lemma {:induction false} PublishedSpecsAreImmutable(ops: seq<Op>, n: nat, k: string)
    requires Legal(ops) && n <= |ops| && Legal(ops[..n]) && k in Run(ops[..n]).rules
    ensures k in Run(ops).rules && Run(ops).rules[k].spec == Run(ops[..n]).rules[k].spec
  {
    if n == |ops| {
      assert ops[..n] == ops;
    } else {
      var m := |ops| - 1;
      assert ops[..m][..n] == ops[..n];
      PublishedSpecsAreImmutable(ops[..m], n, k);
    }
  }
}
