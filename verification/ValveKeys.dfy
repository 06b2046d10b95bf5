/**
 The valves are kept under a text made of rule id, version and vehicle. When
 that text stands for one rule version and one vehicle, and when it does not.
 */
module ValveKeys {
  import opened Collections
  import opened Schemas
  import VehicleStates
  import opened Rules
  import opened RuleSafety

  const NO_VALVES := Valves(map[], map[])

  ghost predicate SlashFreeVehicles(trace: seq<Trigger>) {
    forall i :: 0 <= i < |trace| ==> '/' !in trace[i].vehicleId
  }

  /** The fire times of one rule version for one vehicle, oldest first. */
  function FireTimes(trace: seq<Trigger>, spec: Spec, vehicleId: string): (ts: seq<int>) {
    if trace == [] then []
    else
      var n := |trace| - 1;
      FireTimes(trace[..n], spec, vehicleId) + if IsFire(trace[n], spec, vehicleId) then [trace[n].at] else []
  }

  /** The decision from the fires of this rule version for this vehicle, and no others. */
  ghost predicate PairAllows(trace: seq<Trigger>, spec: Spec, vehicleId: string, now: int) {
    var times := FireTimes(trace, spec, vehicleId);
    && (spec.cooldownSecs > 0 && times != [] ==> now - times[|times| - 1] >= spec.cooldownSecs * SECOND)
    && |After(times, now - HOUR)| < spec.maxActionsPerHour
  }

  // ---------------------------------------------------------------- without slashes in vehicle ids

  /** Among published rules a key with a slash-free vehicle stands for one rule version and one vehicle, whatever
      slashes the rule's own id and version hold: two versions under one key are never both published. */
  lemma KeysIdentify(rules: map<string, Rule>, tr: Trigger, k: string, vehicleId: string)
    requires WellKeyed(rules) && FromPublished(rules, tr) && k in rules && '/' !in tr.vehicleId && '/' !in vehicleId
    ensures var spec := rules[k].spec;
      TriggerKey(tr) == ValveKey(spec.id, spec.version, vehicleId) <==> IsFire(tr, spec, vehicleId)
  {
    var spec := rules[k].spec;
    if TriggerKey(tr) == ValveKey(spec.id, spec.version, vehicleId) {
      CutLast(Key(tr.ruleId, tr.ruleVersion), tr.vehicleId, Key(spec.id, spec.version), vehicleId, '/');
    }
  }

  lemma {:induction false} TimesAreFires(rules: map<string, Rule>, trace: seq<Trigger>, k: string, vehicleId: string)
    requires WellKeyed(rules) && k in rules && SlashFreeVehicles(trace) && '/' !in vehicleId
    requires forall i :: 0 <= i < |trace| ==> FromPublished(rules, trace[i])
    ensures var spec := rules[k].spec;
      Times(trace, ValveKey(spec.id, spec.version, vehicleId)) == FireTimes(trace, spec, vehicleId)
  {
    if trace != [] {
      var n := |trace| - 1;
      TimesAreFires(rules, trace[..n], k, vehicleId);
      KeysIdentify(rules, trace[n], k, vehicleId);
    }
  }

  /** In every run, for every published rule and at every later clock reading: if neither the vehicle nor any vehicle
      that fired has a slash in its id, the valves decide exactly as the fires of that rule version for that vehicle
      alone would. */
  lemma ValvesRefinePair(ops: seq<Op>, k: string, vehicleId: string, now: int)
    requires Legal(ops) && k in Run(ops).rules && (Run(ops).now.Some? ==> Run(ops).now.value <= now)
    requires SlashFreeVehicles(Run(ops).trace) && '/' !in vehicleId
    ensures var l := Run(ops); var spec := l.rules[k].spec;
      ValveStep(l.valves, ValveKey(spec.id, spec.version, vehicleId), spec, now).0 <==> PairAllows(l.trace, spec, vehicleId, now)
  {
    var l := Run(ops);
    var spec := l.rules[k].spec;
    var key := ValveKey(spec.id, spec.version, vehicleId);
    ValvesHold(ops);
    TimesAreFires(l.rules, l.trace, k, vehicleId);
    if l.now.Some? {
      LaterClock(l.valves, l.trace, l.now.value, now);
    }
    assert Recoverable(l.valves, l.trace, key, now);
    ValvesRefineTrace(l.valves, l.trace, key, spec, now);
  }

  lemma {:induction false} FiresAreCounted(trace: seq<Trigger>, spec: Spec, vehicleId: string, from: int)
    requires forall i :: 0 <= i < |trace| ==> trace[i].at <= from + HOUR
    ensures |After(FireTimes(trace, spec, vehicleId), from)| == FiresInHour(trace, spec, vehicleId, from)
  {
    if trace != [] {
      var n := |trace| - 1;
      FiresAreCounted(trace[..n], spec, vehicleId, from);
      AfterNext(FireTimes(trace[..n], spec, vehicleId), trace[n].at, from);
      Unchanged(FireTimes(trace[..n], spec, vehicleId));
    }
  }

  lemma {:induction false} LastFireIsAFire(trace: seq<Trigger>, spec: Spec, vehicleId: string)
    ensures var times := FireTimes(trace, spec, vehicleId);
      times != [] ==> exists i :: 0 <= i < |trace| && IsFire(trace[i], spec, vehicleId) && trace[i].at == times[|times| - 1]
  {
    if trace != [] {
      var n := |trace| - 1;
      LastFireIsAFire(trace[..n], spec, vehicleId);
      Unchanged(FireTimes(trace[..n], spec, vehicleId));
    }
  }

  lemma {:induction false} FireIsTimed(trace: seq<Trigger>, spec: Spec, vehicleId: string, i: nat)
    requires i < |trace| && IsFire(trace[i], spec, vehicleId)
    ensures FireTimes(trace, spec, vehicleId) != []
  {
    if i < |trace| - 1 { FireIsTimed(trace[..|trace| - 1], spec, vehicleId, i); }
  }

  /** Fewer than MaxActionsPerHour fires in the hour up to `now`, and every fire at least the cooldown ago. */
  ghost predicate RestedEnough(trace: seq<Trigger>, spec: Spec, vehicleId: string, now: int) {
    && FiresInHour(trace, spec, vehicleId, now - HOUR) < spec.maxActionsPerHour
    && (spec.cooldownSecs > 0 ==>
          forall i :: 0 <= i < |trace| && IsFire(trace[i], spec, vehicleId) ==> now - trace[i].at >= spec.cooldownSecs * SECOND)
  }

  lemma PairIsRested(v: Valves, trace: seq<Trigger>, spec: Spec, vehicleId: string, now: int)
    requires TraceKept(v, trace, now)
    requires Times(trace, ValveKey(spec.id, spec.version, vehicleId)) == FireTimes(trace, spec, vehicleId)
    ensures PairAllows(trace, spec, vehicleId, now) <==> RestedEnough(trace, spec, vehicleId, now)
  {
    var key, times := ValveKey(spec.id, spec.version, vehicleId), FireTimes(trace, spec, vehicleId);
    FiresAreCounted(trace, spec, vehicleId, now - HOUR);
    assert Recoverable(v, trace, key, now);
    LastFireIsAFire(trace, spec, vehicleId);
    forall i | 0 <= i < |trace| && IsFire(trace[i], spec, vehicleId) ensures times != [] && trace[i].at <= times[|times| - 1] {
      FireIsTimed(trace, spec, vehicleId, i);
      assert TriggerKey(trace[i]) == key;
    }
  }

  /** In such a run a rule may fire exactly when it has fired fewer than MaxActionsPerHour times for the vehicle in the
      last hour and its every fire for the vehicle is at least the cooldown ago. */
  lemma ValvesAllowIff(ops: seq<Op>, k: string, vehicleId: string, now: int)
    requires Legal(ops) && k in Run(ops).rules && (Run(ops).now.Some? ==> Run(ops).now.value <= now)
    requires SlashFreeVehicles(Run(ops).trace) && '/' !in vehicleId
    ensures var l := Run(ops); var spec := l.rules[k].spec;
      ValveStep(l.valves, ValveKey(spec.id, spec.version, vehicleId), spec, now).0 <==> RestedEnough(l.trace, spec, vehicleId, now)
  {
    var l := Run(ops);
    ValvesHold(ops);
    ValvesRefinePair(ops, k, vehicleId, now);
    TimesAreFires(l.rules, l.trace, k, vehicleId);
    if l.now.Some? {
      LaterClock(l.valves, l.trace, l.now.value, now);
    }
    assert TraceKept(l.valves, l.trace, now) by {
      if l.now.None? {
        forall key ensures Recoverable(l.valves, l.trace, key, now) {
          assert Times(l.trace, key) == [];
        }
      }
    }
    PairIsRested(l.valves, l.trace, l.rules[k].spec, vehicleId, now);
  }

  // ---------------------------------------------------------------- with a slash in a vehicle id

  /** The slash is not escaped: a vehicle with a slash in its id shares its valves with another vehicle under another
      version of the rule. */
  lemma SlashedVehiclesCollide(id: string, version: string, vehicleId: string) returns (version': string, vehicleId': string)
    requires '/' in vehicleId
    ensures Key(id, version') != Key(id, version) && '/' !in vehicleId'
    ensures ValveKey(id, version', vehicleId') == ValveKey(id, version, vehicleId)
  {
    var i := LastSlash(vehicleId);
    var head, tail := vehicleId[..i], vehicleId[i + 1..];
    version', vehicleId' := version + "/" + head, tail;
    assert vehicleId == head + "/" + tail;
    assert |Key(id, version')| > |Key(id, version)|;
    assert id + "/" + (version + "/" + head) + "/" + tail == id + "/" + version + "/" + (head + "/" + tail);
  }

  lemma LastSlash(s: string) returns (i: nat)
    requires '/' in s
    ensures i < |s| && s[i] == '/' && '/' !in s[i + 1..]
  {
    i := |s| - 1;
    while s[i] != '/'
      invariant i < |s| && '/' !in s[i + 1..] && '/' in s[..i + 1]
      decreases i
    {
      NextPrefix(s, i);
      assert s[i..] == [s[i]] + s[i + 1..];
      i := i - 1;
    }
  }

  lemma AppendOp(ops: seq<Op>, op: Op)
    requires Legal(ops)
    requires op.Evaluate? ==> Enumerates(op.order, Run(ops).rules) && (Run(ops).now.Some? ==> Run(ops).now.value <= op.x.now)
    ensures Legal(ops + [op]) && Run(ops + [op]) == Next(Run(ops), op)
  {
    Prefixed(ops, op);
  }

  /** A rule that fires once and a second one published after it. */
  function FireThenPublish(spec: Spec, other: Spec, x: Context): seq<Op> {
    [Publish(spec, 0)] + [Evaluate([Key(spec.id, spec.version)], x)] + [Publish(other, 0)]
  }

  lemma FirstFire(spec: Spec, x: Context, ev: Event)
    requires spec.conditions == [] && spec.maxActionsPerHour == 1
    requires x.evs == [ev] && ev.eventType == spec.eventType && ev.vehicleId == x.t.vehicleId
    ensures var tr := TriggerOf(spec, ev, x.t, x.s, x.now);
      var o := RuleRun(NO_VALVES, spec, x, 1);
      o.triggers == [tr] && o.valves == Fired(NO_VALVES, tr)
  {
    var o := RuleRun(NO_VALVES, spec, x, 0);
    assert RuleRun(NO_VALVES, spec, x, 1) == Then(o, EventStep(o.valves, spec, ev, x));
    assert Matches(spec, ev, x.t, x.s);
    assert After([], x.now - HOUR) == [];
  }

  lemma EvaluateSingle(v: Valves, rules: map<string, Rule>, k: string, x: Context)
    requires k in rules
    ensures EvaluateIn(v, rules, [k], x).valves == RuleRun(v, rules[k].spec, x, |x.evs|).valves
    ensures EvaluateIn(v, rules, [k], x).triggers == RuleRun(v, rules[k].spec, x, |x.evs|).triggers
  {
    assert [k][..0] == [] && [k][..1] == [k];
    EvaluateNext(v, rules, [k], 0, x);
  }

  lemma RunFireThenPublish(spec: Spec, other: Spec, x: Context, ev: Event)
    requires spec.conditions == [] && spec.maxActionsPerHour == 1 && Key(other.id, other.version) != Key(spec.id, spec.version)
    requires x.evs == [ev] && ev.eventType == spec.eventType && ev.vehicleId == x.t.vehicleId
    ensures Legal(FireThenPublish(spec, other, x))
    ensures var l, tr := Run(FireThenPublish(spec, other, x)), TriggerOf(spec, ev, x.t, x.s, x.now);
      && l.trace == [tr] && l.valves == Fired(NO_VALVES, tr) && l.now == Some(x.now)
      && Key(other.id, other.version) in l.rules && l.rules[Key(other.id, other.version)].spec == other
  {
    var k := Key(spec.id, spec.version);
    var one, two := Publish(spec, 0), Evaluate([k], x);
    AppendOp([], one);
    assert [] + [one] == [one];
    assert Enumerates([k], Run([one]).rules);
    AppendOp([one], two);
    FirstFire(spec, x, ev);
    EvaluateSingle(NO_VALVES, Run([one]).rules, k, x);
    AppendOp([one] + [two], Publish(other, 0));
  }

  /** Under a shared key the fire of one pair holds back another pair, which never fired. */
  lemma SharedKeyHoldsBack(spec: Spec, other: Spec, x: Context, ev: Event, vehicleId: string)
    requires spec.conditions == [] && spec.maxActionsPerHour == 1 && Key(other.id, other.version) != Key(spec.id, spec.version)
    requires x.evs == [ev] && ev.eventType == spec.eventType && ev.vehicleId == x.t.vehicleId
    requires other.maxActionsPerHour == 1 && other.cooldownSecs == 0
    requires ValveKey(other.id, other.version, vehicleId) == ValveKey(spec.id, spec.version, x.t.vehicleId)
    ensures var ops, key := FireThenPublish(spec, other, x), ValveKey(other.id, other.version, vehicleId);
      && Legal(ops) && Key(other.id, other.version) in Run(ops).rules && Run(ops).now == Some(x.now)
      && !ValveStep(Run(ops).valves, key, other, x.now).0 && PairAllows(Run(ops).trace, other, vehicleId, x.now)
  {
    RunFireThenPublish(spec, other, x, ev);
    var tr := TriggerOf(spec, ev, x.t, x.s, x.now);
    assert [] + [x.now] == [x.now];
    AfterNext([], x.now, x.now - HOUR);
    Prefixed([], tr);
  }

  /** The condition is exact: for every vehicle with a slash in its id there is a run after which the valves hold it
      back although its rule version never fired for it, and one after which its own fire holds back a vehicle without
      a slash. */
  lemma SlashesBreakValves(rule: Spec, t: Telemetry, s: VehicleStates.VehicleState, ev: Event)
    requires '/' in t.vehicleId && rule.conditions == [] && rule.maxActionsPerHour == 1 && rule.cooldownSecs == 0
    requires ev.eventType == rule.eventType
    ensures exists ops, k, now :: HoldsBack(ops, k, t.vehicleId, now)
    ensures exists ops, k, vehicleId, now :: '/' !in vehicleId && HoldsBack(ops, k, vehicleId, now)
  {
    var version, vehicleId := SlashedVehiclesCollide(rule.id, rule.version, t.vehicleId);
    var other := rule.(version := version);
    var mine := Context(t, s, [ev.(vehicleId := t.vehicleId)], 0);
    var its := Context(t.(vehicleId := vehicleId), s, [ev.(vehicleId := vehicleId)], 0);
    SharedKeyHoldsBack(other, rule, its, its.evs[0], t.vehicleId);
    assert HoldsBack(FireThenPublish(other, rule, its), Key(rule.id, rule.version), t.vehicleId, 0) by {
      RunFireThenPublish(other, rule, its, its.evs[0]);
    }
    SharedKeyHoldsBack(rule, other, mine, mine.evs[0], vehicleId);
    assert HoldsBack(FireThenPublish(rule, other, mine), Key(other.id, other.version), vehicleId, 0) by {
      RunFireThenPublish(rule, other, mine, mine.evs[0]);
    }
  }

  /** After the run the valves refuse a fire that the fires of that rule version for that vehicle would allow. */
  ghost predicate HoldsBack(ops: seq<Op>, k: string, vehicleId: string, now: int) {
    Legal(ops) &&
    var l := Run(ops);
    && k in l.rules && (l.now.Some? ==> l.now.value <= now)
    && var spec := l.rules[k].spec;
       && !ValveStep(l.valves, ValveKey(spec.id, spec.version, vehicleId), spec, now).0
       && PairAllows(l.trace, spec, vehicleId, now)
  }
}
