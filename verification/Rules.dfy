/**
 The rule engine: immutable published versions, matching, and the two safety
 valves. No webhook dispatcher is attached.
 */
module Rules {
  import opened Schemas
  import opened VehicleStates
  import opened Permutations
  import opened Collections

  datatype Condition = Condition(field: string, op: string, value: real)

  datatype Spec = Spec(
    id: string, version: string, eventType: string, conditions: seq<Condition>,
    emit: string, webhook: string, secret: string, cooldownSecs: int, maxActionsPerHour: int)

  datatype Rule = Rule(spec: Spec, published: int)

  datatype Trigger = Trigger(
    ruleId: string, ruleVersion: string, vehicleId: string, at: int,
    matchedInputs: map<string, Matched>, conditions: seq<(Condition, real)>, actionsTaken: seq<string>)

  function Key(id: string, version: string): string {
    id + "/" + version
  }

  function ValveKey(id: string, version: string, vehicleId: string): string {
    Key(id, version) + "/" + vehicleId
  }

  // ---------------------------------------------------------------- matching

  function FieldValue(t: Telemetry, s: VehicleState, field: string): (v: Option<real>) {
    if field == "speedKmh" then t.speedKmh
    else if field == "stateSpeedKmh" then s.speedKmh
    else if field == "fuelLevel" then t.fuelLevel
    else None
  }

  function SeenValue(t: Telemetry, s: VehicleState, field: string): real {
    match FieldValue(t, s, field) case Some(v) => v case None => 0.0
  }

  predicate MatchOp(op: string, got: real, want: real) {
    || (op == ">" && got > want)
    || (op == ">=" && got >= want)
    || (op == "<" && got < want)
    || (op == "<=" && got <= want)
    || (op == "==" && got == want)
  }

  predicate Meets(c: Condition, t: Telemetry, s: VehicleState) {
    FieldValue(t, s, c.field).Some? && MatchOp(c.op, FieldValue(t, s, c.field).value, c.value)
  }

  predicate Matches(spec: Spec, ev: Event, t: Telemetry, s: VehicleState) {
    && ev.eventType == spec.eventType && ev.vehicleId == t.vehicleId
    && forall c :: c in spec.conditions ==> Meets(c, t, s)
  }

  function MatchedInputs(cs: seq<Condition>, ev: Event, t: Telemetry, s: VehicleState): map<string, Matched> {
    if cs == [] then map["event" := Text(ev.eventType), "eventId" := Text(ev.id)]
    else
      var c := cs[|cs| - 1];
      MatchedInputs(cs[..|cs| - 1], ev, t, s)[c.field := Number(SeenValue(t, s, c.field))]
  }

  function Descriptions(cs: seq<Condition>, t: Telemetry, s: VehicleState): seq<(Condition, real)> {
    if cs == [] then []
    else
      var c := cs[|cs| - 1];
      Descriptions(cs[..|cs| - 1], t, s) + [(c, SeenValue(t, s, c.field))]
  }

  function EmittedEvent(spec: Spec, ev: Event, t: Telemetry, s: VehicleState): Event {
    Event(DeterministicId(spec.emit, t.vehicleId, t.timestamp, Key(spec.id, spec.version)),
          spec.emit, t.tenantId, t.vehicleId, t.timestamp, spec.id, spec.version, t.metadata.correlationId, ev.id,
          RuleMatch(spec.id, spec.version, ev.eventType, MatchedInputs(spec.conditions, ev, t, s)), SCHEMA_VERSION)
  }

  function Emissions(spec: Spec, ev: Event, t: Telemetry, s: VehicleState): (es: seq<Event>) {
    var e := EmittedEvent(spec, ev, t, s);
    if spec.emit != "" && ValidEvent(e) then [e] else []
  }

  function TriggerOf(spec: Spec, ev: Event, t: Telemetry, s: VehicleState, now: int): Trigger {
    Trigger(spec.id, spec.version, t.vehicleId, now, MatchedInputs(spec.conditions, ev, t, s),
            Descriptions(spec.conditions, t, s), if Emissions(spec, ev, t, s) == [] then [] else ["emit:" + spec.emit])
  }

  // ---------------------------------------------------------------- valves

  datatype Valves = Valves(lastFire: map<string, int>, fireLog: map<string, seq<int>>)

  function LogOf(v: Valves, key: string): seq<int> {
    if key in v.fireLog then v.fireLog[key] else []
  }

  /** The times after `cut`, in order. */
  function After(times: seq<int>, cut: int): (r: seq<int>) {
    if times == [] then []
    else After(times[..|times| - 1], cut) + if times[|times| - 1] > cut then [times[|times| - 1]] else []
  }

  /** One matched event meets the valves: does the rule fire, and what do the valves remember? */
  function ValveStep(v: Valves, key: string, spec: Spec, now: int): (r: (bool, Valves)) {
    if spec.cooldownSecs > 0 && key in v.lastFire && now - v.lastFire[key] < spec.cooldownSecs * SECOND then (false, v)
    else
      var recent := After(LogOf(v, key), now - HOUR);
      if |recent| >= spec.maxActionsPerHour then (false, v.(fireLog := v.fireLog[key := recent]))
      else (true, Valves(v.lastFire[key := now], v.fireLog[key := recent + [now]]))
  }

  // ---------------------------------------------------------------- evaluation

  /** What an evaluation is given: the point, its state, the events so far and a clock reading. */
  datatype Context = Context(t: Telemetry, s: VehicleState, evs: seq<Event>, now: int)

  datatype Outcome = Outcome(valves: Valves, events: seq<Event>, triggers: seq<Trigger>)

  function VehicleKey(spec: Spec, x: Context): string {
    ValveKey(spec.id, spec.version, x.t.vehicleId)
  }

  function EventStep(v: Valves, spec: Spec, ev: Event, x: Context): (o: Outcome) {
    if !Matches(spec, ev, x.t, x.s) then Outcome(v, [], [])
    else
      var (fires, v') := ValveStep(v, VehicleKey(spec, x), spec, x.now);
      if fires then Outcome(v', Emissions(spec, ev, x.t, x.s), [TriggerOf(spec, ev, x.t, x.s, x.now)])
      else Outcome(v', [], [])
  }

  /** One rule against the first `n` events. */
  function RuleRun(v: Valves, spec: Spec, x: Context, n: nat): (o: Outcome)
    requires n <= |x.evs|
  {
    if n == 0 then Outcome(v, [], [])
    else
      var o := RuleRun(v, spec, x, n - 1);
      Then(o, EventStep(o.valves, spec, x.evs[n - 1], x))
  }

  /** The rules of `order`, one after the other. */
  function EvaluateIn(v: Valves, rules: map<string, Rule>, order: seq<string>, x: Context): (o: Outcome) {
    if order == [] then Outcome(v, [], [])
    else
      var n := |order| - 1;
      var o := EvaluateIn(v, rules, order[..n], x);
      if order[n] !in rules then o else Then(o, RuleRun(o.valves, rules[order[n]].spec, x, |x.evs|))
  }

  /** First `o`, then `o'`. */
  function Then(o: Outcome, o': Outcome): Outcome {
    Outcome(o'.valves, o.events + o'.events, o.triggers + o'.triggers)
  }

  lemma EvaluateNext(v: Valves, rules: map<string, Rule>, order: seq<string>, r: nat, x: Context)
    requires r < |order| && order[r] in rules
    ensures var o := EvaluateIn(v, rules, order[..r], x);
      EvaluateIn(v, rules, order[..r + 1], x) == Then(o, RuleRun(o.valves, rules[order[r]].spec, x, |x.evs|))
  {
    NextPrefix(order, r);
  }

  /** An iteration order of a map: each of its keys once. */
  ghost predicate Enumerates(order: seq<string>, rules: map<string, Rule>) {
    && (forall k :: k in order <==> k in rules)
    && (forall i, j :: 0 <= i < j < |order| ==> order[i] != order[j])
  }

  ghost predicate WellKeyed(rules: map<string, Rule>) {
    forall k :: k in rules ==> Key(rules[k].spec.id, rules[k].spec.version) == k
  }

  class Engine {
    var rules: map<string, Rule>
    var triggers: seq<Trigger>
    var lastFire: map<string, int>
    var fireLog: map<string, seq<int>>

    constructor ()
      ensures rules == map[] && triggers == [] && lastFire == map[] && fireLog == map[]
    {
      rules, triggers, lastFire, fireLog := map[], [], map[], map[];
    }

    ghost function State(): Valves
      reads this
    {
      Valves(lastFire, fireLog)
    }

    method Publish(s: Spec, at: int) returns (ok: bool)
      modifies this`rules
      ensures ok == CanPublish(old(rules), s)
      ensures rules == PublishSpec(old(rules), s, at)
    {
      var k := Key(s.id, s.version);
      if k in rules && rules[k].spec != s {
        return false;
      }
      rules := rules[k := Rule(s, at)];
      ok := true;
    }

    method Evaluate(order: seq<string>, x: Context) returns (out: seq<Event>)
      requires Enumerates(order, rules)
      modifies this`triggers, this`lastFire, this`fireLog
      ensures var o := EvaluateIn(old(State()), rules, order, x);
        State() == o.valves && out == o.events && triggers == old(triggers) + o.triggers
    {
      out := [];
      ghost var v, o := State(), Outcome(State(), [], []);
      for r := 0 to |order|
        invariant o == EvaluateIn(v, rules, order[..r], x)
        invariant State() == o.valves && out == o.events && triggers == old(triggers) + o.triggers
      {
        EvaluateNext(v, rules, order, r, x);
        ghost var o' := RuleRun(o.valves, rules[order[r]].spec, x, |x.evs|);
        var more := EvaluateRule(rules[order[r]].spec, x);
        Joined(old(triggers), o.triggers, o'.triggers);
        out, o := out + more, Then(o, o');
      }
      WholePrefix(order);
    }

    /** The loop over the events for one rule. */
    method EvaluateRule(spec: Spec, x: Context) returns (out: seq<Event>)
      modifies this`triggers, this`lastFire, this`fireLog
      ensures var o := RuleRun(old(State()), spec, x, |x.evs|);
        State() == o.valves && out == o.events && triggers == old(triggers) + o.triggers
    {
      out := [];
      ghost var v, o := State(), Outcome(State(), [], []);
      for i := 0 to |x.evs|
        invariant o == RuleRun(v, spec, x, i)
        invariant State() == o.valves && out == o.events && triggers == old(triggers) + o.triggers
      {
        ghost var o' := EventStep(o.valves, spec, x.evs[i], x);
        var more := EvaluateEvent(spec, x.evs[i], x);
        Joined(old(triggers), o.triggers, o'.triggers);
        out, o := out + more, Then(o, o');
      }
    }

    method EvaluateEvent(spec: Spec, ev: Event, x: Context) returns (out: seq<Event>)
      modifies this`triggers, this`lastFire, this`fireLog
      ensures var o := EventStep(old(State()), spec, ev, x);
        State() == o.valves && out == o.events && triggers == old(triggers) + o.triggers
    {
      out := [];
      Unchanged(triggers);
      if !Matches(spec, ev, x.t, x.s) {
        return;
      }
      var fires := PassValves(VehicleKey(spec, x), spec, x.now);
      if !fires {
        return;
      }
      out := Emissions(spec, ev, x.t, x.s);
      triggers := triggers + [TriggerOf(spec, ev, x.t, x.s, x.now)];
    }

    /** The two safety valves: cooldown, then the hourly cap over the pruned log. */
    method PassValves(vk: string, spec: Spec, now: int) returns (fires: bool)
      modifies this`lastFire, this`fireLog
      ensures var r := ValveStep(old(State()), vk, spec, now); fires == r.0 && State() == r.1
    {
      if spec.cooldownSecs > 0 && vk in lastFire && now - lastFire[vk] < spec.cooldownSecs * SECOND {
        return false;
      }
      var recent := Prune(if vk in fireLog then fireLog[vk] else [], now - HOUR);
      fireLog := fireLog[vk := recent];
      if |recent| >= spec.maxActionsPerHour {
        return false;
      }
      lastFire := lastFire[vk := now];
      Overwritten(old(fireLog), vk, recent, recent + [now]);
      fireLog := fireLog[vk := recent + [now]];
      return true;
    }
  }

  lemma AfterNext(times: seq<int>, time: int, cut: int)
    ensures After(times + [time], cut) == if time > cut then After(times, cut) + [time] else After(times, cut)
  {
    Prefixed(times, time);
  }

  /** The inner loop that keeps the recent fires. */
  method Prune(log: seq<int>, cut: int) returns (recent: seq<int>)
    ensures recent == After(log, cut)
  {
    recent := [];
    for i := 0 to |log|
      invariant recent == After(log[..i], cut)
    {
      NextPrefix(log, i);
      AfterNext(log[..i], log[i], cut);
      if log[i] > cut {
        recent := recent + [log[i]];
      }
    }
    WholePrefix(log);
  }

  // ---------------------------------------------------------------- publishing

  predicate CanPublish(rules: map<string, Rule>, s: Spec) {
    Key(s.id, s.version) in rules ==> rules[Key(s.id, s.version)].spec == s
  }

  function PublishSpec(rules: map<string, Rule>, s: Spec, at: int): (rules': map<string, Rule>) {
    if CanPublish(rules, s) then rules[Key(s.id, s.version) := Rule(s, at)] else rules
  }

  /** A version is published unless it is there with other content; publishing the same content again succeeds, and no
      other version is touched. */
  lemma PublishMeaning(rules: map<string, Rule>, s: Spec, at: int, k: string)
    requires WellKeyed(rules)
    ensures var after := PublishSpec(rules, s, at);
      && (CanPublish(rules, s) <==> !exists r :: r in rules.Values && Key(r.spec.id, r.spec.version) == Key(s.id, s.version) && r.spec != s)
      && (CanPublish(rules, s) <==> Key(s.id, s.version) in after && after[Key(s.id, s.version)].spec == s)
      && (CanPublish(rules, s) ==> CanPublish(after, s) && after[Key(s.id, s.version)] == Rule(s, at))
      && (k != Key(s.id, s.version) || !CanPublish(rules, s) ==> (k in after <==> k in rules) && (k in rules ==> after[k] == rules[k]))
  {
    var key := Key(s.id, s.version);
    if key in rules { assert rules[key] in rules.Values; }
  }

  // ---------------------------------------------------------------- iteration order

  /** Everything the valves remember under one key. */
  function Entry(v: Valves, key: string): (Option<int>, Option<seq<int>>) {
    (if key in v.lastFire then Some(v.lastFire[key]) else None, if key in v.fireLog then Some(v.fireLog[key]) else None)
  }

  lemma EntriesDecide(v: Valves, w: Valves)
    requires forall key :: Entry(v, key) == Entry(w, key)
    ensures v == w
  {
    forall key ensures key in v.lastFire <==> key in w.lastFire
      ensures key in v.fireLog <==> key in w.fireLog
      ensures key in v.lastFire ==> v.lastFire[key] == w.lastFire[key]
      ensures key in v.fireLog ==> v.fireLog[key] == w.fireLog[key]
    {
      assert Entry(v, key) == Entry(w, key);
    }
    assert v.lastFire == w.lastFire && v.fireLog == w.fireLog;
  }

  lemma ValveIsLocal(v: Valves, w: Valves, key: string, spec: Spec, now: int)
    requires Entry(v, key) == Entry(w, key)
    ensures var (a, v'), (b, w') := ValveStep(v, key, spec, now), ValveStep(w, key, spec, now);
      a == b && Entry(v', key) == Entry(w', key)
    ensures forall key' :: key' != key ==> Entry(ValveStep(v, key, spec, now).1, key') == Entry(v, key')
  {
  }

  lemma EventIsLocal(v: Valves, w: Valves, spec: Spec, ev: Event, x: Context)
    requires Entry(v, VehicleKey(spec, x)) == Entry(w, VehicleKey(spec, x))
    ensures var a, b := EventStep(v, spec, ev, x), EventStep(w, spec, ev, x);
      && a.events == b.events && a.triggers == b.triggers
      && Entry(a.valves, VehicleKey(spec, x)) == Entry(b.valves, VehicleKey(spec, x))
      && forall key :: key != VehicleKey(spec, x) ==> Entry(a.valves, key) == Entry(v, key)
  {
    ValveIsLocal(v, w, VehicleKey(spec, x), spec, x.now);
  }

  /** A rule touches one key of the valves, and its outcome depends on that key alone. */
  lemma {:induction false} RuleIsLocal(v: Valves, w: Valves, spec: Spec, x: Context, n: nat)
    requires n <= |x.evs| && Entry(v, VehicleKey(spec, x)) == Entry(w, VehicleKey(spec, x))
    ensures var a, b := RuleRun(v, spec, x, n), RuleRun(w, spec, x, n);
      && a.events == b.events && a.triggers == b.triggers
      && Entry(a.valves, VehicleKey(spec, x)) == Entry(b.valves, VehicleKey(spec, x))
      && forall key :: key != VehicleKey(spec, x) ==> Entry(a.valves, key) == Entry(v, key)
  {
    if n > 0 {
      RuleIsLocal(v, w, spec, x, n - 1);
      EventIsLocal(RuleRun(v, spec, x, n - 1).valves, RuleRun(w, spec, x, n - 1).valves, spec, x.evs[n - 1], x);
    }
  }

  lemma ValveKeysDiffer(k: string, k': string, vehicleId: string)
    requires k + "/" + vehicleId == k' + "/" + vehicleId
    ensures k == k'
  {
    var suffix := "/" + vehicleId;
    assert k + "/" + vehicleId == k + suffix && k' + "/" + vehicleId == k' + suffix;
    assert |k| == |k'|;
    assert k == (k + suffix)[..|k|] && k' == (k' + suffix)[..|k'|];
  }

  /** What one rule does by itself, from the valves before the evaluation. */
  function Alone(v: Valves, rules: map<string, Rule>, x: Context, k: string): Outcome {
    if k in rules then RuleRun(v, rules[k].spec, x, |x.evs|) else Outcome(v, [], [])
  }

  function AloneEvents(v: Valves, rules: map<string, Rule>, x: Context): string -> seq<Event> {
    k => Alone(v, rules, x, k).events
  }

  function AloneTriggers(v: Valves, rules: map<string, Rule>, x: Context): string -> seq<Trigger> {
    k => Alone(v, rules, x, k).triggers
  }

  ghost predicate DistinctKeys(order: seq<string>, rules: map<string, Rule>) {
    && (forall k :: k in order ==> k in rules)
    && (forall i, j :: 0 <= i < j < |order| ==> order[i] != order[j])
  }

  /** The entry under `key` is set by the rule that owns it, if it is among `order`, and by nothing else. */
  lemma {:induction false} EntryAfter(v: Valves, rules: map<string, Rule>, order: seq<string>, x: Context, key: string)
    requires WellKeyed(rules) && DistinctKeys(order, rules)
    ensures var after := EvaluateIn(v, rules, order, x).valves;
      && (forall k :: k in order && key == k + "/" + x.t.vehicleId ==>
            Entry(after, key) == Entry(Alone(v, rules, x, k).valves, key))
      && ((forall k :: k in order ==> key != k + "/" + x.t.vehicleId) ==> Entry(after, key) == Entry(v, key))
  {
    if order != [] {
      var n := |order| - 1;
      var front, k := order[..n], order[n];
      assert forall k' :: k' in order <==> k' in front || k' == k;
      EntryAfter(v, rules, front, x, key);
      var spec := rules[k].spec;
      assert VehicleKey(spec, x) == k + "/" + x.t.vehicleId;
      RuleIsLocal(EvaluateIn(v, rules, front, x).valves, EvaluateIn(v, rules, front, x).valves, spec, x, |x.evs|);
      if key == VehicleKey(spec, x) {
        forall k' | k' in order && key == k' + "/" + x.t.vehicleId ensures k' == k {
          ValveKeysDiffer(k, k', x.t.vehicleId);
        }
        RuleIsLocal(v, EvaluateIn(v, rules, front, x).valves, spec, x, |x.evs|);
      }
    }
  }

  /** The rules of one evaluation do not see each other. */
  lemma {:induction false} RulesAreIndependent(v: Valves, rules: map<string, Rule>, order: seq<string>, x: Context)
    requires WellKeyed(rules) && DistinctKeys(order, rules)
    ensures EvaluateIn(v, rules, order, x).events == Collect(order, AloneEvents(v, rules, x))
    ensures EvaluateIn(v, rules, order, x).triggers == Collect(order, AloneTriggers(v, rules, x))
  {
    if order != [] {
      var n := |order| - 1;
      var front, k := order[..n], order[n];
      RulesAreIndependent(v, rules, front, x);
      var spec := rules[k].spec;
      var mine := VehicleKey(spec, x);
      assert mine == k + "/" + x.t.vehicleId;
      forall k' | k' in front ensures mine != k' + "/" + x.t.vehicleId {
        if mine == k' + "/" + x.t.vehicleId { ValveKeysDiffer(k, k', x.t.vehicleId); }
      }
      EntryAfter(v, rules, front, x, mine);
      RuleIsLocal(v, EvaluateIn(v, rules, front, x).valves, spec, x, |x.evs|);
    }
  }

  /** For every two iteration orders of the rules map the events and triggers are the same as multisets and the
      valves are the same; with at most one rule the events are the same list. */
  lemma OrderIsIrrelevant(v: Valves, rules: map<string, Rule>, a: seq<string>, b: seq<string>, x: Context)
    requires WellKeyed(rules) && Enumerates(a, rules) && Enumerates(b, rules)
    ensures var oa, ob := EvaluateIn(v, rules, a, x), EvaluateIn(v, rules, b, x);
      && oa.valves == ob.valves
      && multiset(oa.events) == multiset(ob.events)
      && multiset(oa.triggers) == multiset(ob.triggers)
    ensures |rules| <= 1 ==> a == b
  {
    var oa, ob := EvaluateIn(v, rules, a, x), EvaluateIn(v, rules, b, x);
    forall key ensures Entry(oa.valves, key) == Entry(ob.valves, key) {
      EntryAfter(v, rules, a, x, key);
      EntryAfter(v, rules, b, x, key);
    }
    EntriesDecide(oa.valves, ob.valves);
    EnumerationsPermute(a, b, rules);
    RulesAreIndependent(v, rules, a, x);
    RulesAreIndependent(v, rules, b, x);
    CollectPermuted(a, b, AloneEvents(v, rules, x));
    CollectPermuted(a, b, AloneTriggers(v, rules, x));
    if |rules| <= 1 { SingleOrder(a, b, rules); }
  }

  lemma {:induction false} CountOnce(a: seq<string>, k: string)
    requires forall i, j :: 0 <= i < j < |a| ==> a[i] != a[j]
    ensures multiset(a)[k] == if k in a then 1 else 0
  {
    if a != [] {
      var n := |a| - 1;
      assert a == a[..n] + [a[n]];
      CountOnce(a[..n], k);
    }
  }

  lemma EnumerationsPermute(a: seq<string>, b: seq<string>, rules: map<string, Rule>)
    requires Enumerates(a, rules) && Enumerates(b, rules)
    ensures multiset(a) == multiset(b)
  {
    forall k ensures multiset(a)[k] == multiset(b)[k] {
      CountOnce(a, k);
      CountOnce(b, k);
    }
  }

  lemma SingleOrder(a: seq<string>, b: seq<string>, rules: map<string, Rule>)
    requires Enumerates(a, rules) && Enumerates(b, rules) && |rules| <= 1
    ensures a == b
  {
    EnumerationsPermute(a, b, rules);
    assert |a| == |multiset(a)| == |multiset(b)| == |b|;
    if |a| >= 2 {
      assert {a[0], a[1]} <= rules.Keys;
      Subset({a[0], a[1]}, rules.Keys);
      assert false;
    } else if |a| == 1 {
      assert a[0] in multiset(b);
    }
  }

  lemma {:induction false} Subset<T>(a: set<T>, b: set<T>)
    requires a <= b
    ensures |a| <= |b|
  {
    if a != {} {
      var x :| x in a;
      Subset(a - {x}, b - {x});
    }
  }

  // ---------------------------------------------------------------- what an evaluation reads

  /** Two contexts that differ in the vehicle state, but not in its speed. */
  ghost predicate SameSpeed(x: Context, y: Context) {
    y == x.(s := y.s) && x.s.speedKmh == y.s.speedKmh
  }

  lemma {:induction false} InputsReadSpeed(cs: seq<Condition>, ev: Event, x: Context, y: Context)
    requires SameSpeed(x, y)
    ensures MatchedInputs(cs, ev, x.t, x.s) == MatchedInputs(cs, ev, y.t, y.s)
    ensures Descriptions(cs, x.t, x.s) == Descriptions(cs, y.t, y.s)
  {
    if cs != [] { InputsReadSpeed(cs[..|cs| - 1], ev, x, y); }
  }

  lemma MatchesReadSpeed(spec: Spec, ev: Event, x: Context, y: Context)
    requires SameSpeed(x, y)
    ensures Matches(spec, ev, x.t, x.s) == Matches(spec, ev, y.t, y.s)
  {
    forall c ensures Meets(c, x.t, x.s) == Meets(c, y.t, y.s) {
    }
  }

  lemma EventReadsSpeed(v: Valves, spec: Spec, ev: Event, x: Context, y: Context)
    requires SameSpeed(x, y)
    ensures EventStep(v, spec, ev, x) == EventStep(v, spec, ev, y)
  {
    MatchesReadSpeed(spec, ev, x, y);
    InputsReadSpeed(spec.conditions, ev, x, y);
  }

  lemma {:induction false} RuleReadsSpeed(v: Valves, spec: Spec, x: Context, y: Context, n: nat)
    requires SameSpeed(x, y) && n <= |x.evs|
    ensures RuleRun(v, spec, x, n) == RuleRun(v, spec, y, n)
  {
    if n > 0 {
      RuleReadsSpeed(v, spec, x, y, n - 1);
      EventReadsSpeed(RuleRun(v, spec, x, n - 1).valves, spec, x.evs[n - 1], x, y);
    }
  }

  /** The engine reads nothing of the vehicle state but its speed. */
  lemma {:induction false} EvaluationReadsSpeed(v: Valves, rules: map<string, Rule>, order: seq<string>, x: Context, y: Context)
    requires SameSpeed(x, y)
    ensures EvaluateIn(v, rules, order, x) == EvaluateIn(v, rules, order, y)
  {
    if order != [] {
      var n := |order| - 1;
      EvaluationReadsSpeed(v, rules, order[..n], x, y);
      if order[n] in rules {
        RuleReadsSpeed(EvaluateIn(v, rules, order[..n], x).valves, rules[order[n]].spec, x, y, |x.evs|);
      }
    }
  }
}
