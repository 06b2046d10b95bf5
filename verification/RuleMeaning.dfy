/**
 What a rule evaluation means: which events match, which of them fire, and what
 triggers and rule events record. Conditions are stated as a relation between
 readings and numbers, apart from the code that evaluates them.
 */
module RuleMeaning {
  import opened Collections
  import opened Schemas
  import opened VehicleStates
  import opened Rules
  import RuleSafety
  import Permutations

  // ---------------------------------------------------------------- conditions

  /** The named reading is there, and it is `r`. */
  ghost predicate Reads(t: Telemetry, s: VehicleState, field: string, r: real) {
    || (field == "speedKmh" && t.speedKmh == Some(r))
    || (field == "stateSpeedKmh" && s.speedKmh == Some(r))
    || (field == "fuelLevel" && t.fuelLevel == Some(r))
  }

  /** The operator, as a statement about how far the reading is above the wanted value. */
  ghost predicate Relates(op: string, above: real) {
    || (op == ">" && above > 0.0)
    || (op == ">=" && above >= 0.0)
    || (op == "<" && above < 0.0)
    || (op == "<=" && above <= 0.0)
    || (op == "==" && above == 0.0)
  }

  /** A condition holds: its reading is there and stands in its relation to its value. */
  ghost predicate Holds(c: Condition, t: Telemetry, s: VehicleState) {
    exists r :: Reads(t, s, c.field, r) && Relates(c.op, r - c.value)
  }

  lemma FieldIsReading(t: Telemetry, s: VehicleState, field: string, r: real)
    ensures FieldValue(t, s, field) == Some(r) <==> Reads(t, s, field, r)
  {
    assert |"speedKmh"| == 8 && |"stateSpeedKmh"| == 13 && |"fuelLevel"| == 9;
  }

  lemma OpIsRelation(op: string, got: real, want: real)
    ensures MatchOp(op, got, want) <==> Relates(op, got - want)
  {
    assert |">"| == 1 && |"<"| == 1 && |">="| == 2 && |"<="| == 2 && |"=="| == 2;
    assert ">"[0] != "<"[0] && ">="[0] != "<="[0] && "=="[0] != ">="[0] && "=="[0] != "<="[0];
  }

  lemma MeetsIsHolds(c: Condition, t: Telemetry, s: VehicleState)
    ensures Meets(c, t, s) <==> Holds(c, t, s)
  {
    if Meets(c, t, s) {
      var r := FieldValue(t, s, c.field).value;
      FieldIsReading(t, s, c.field, r);
      OpIsRelation(c.op, r, c.value);
    }
    if Holds(c, t, s) {
      var r :| Reads(t, s, c.field, r) && Relates(c.op, r - c.value);
      FieldIsReading(t, s, c.field, r);
      OpIsRelation(c.op, r, c.value);
    }
  }

  /** An event of the rule's type and of the vehicle, all conditions holding. */
  ghost predicate Matched(spec: Spec, ev: Event, x: Context) {
    && ev.eventType == spec.eventType && ev.vehicleId == x.t.vehicleId
    && forall c :: c in spec.conditions ==> Holds(c, x.t, x.s)
  }

  lemma MatchesIsMatched(spec: Spec, ev: Event, x: Context)
    ensures Matches(spec, ev, x.t, x.s) <==> Matched(spec, ev, x)
  {
    forall c ensures Meets(c, x.t, x.s) <==> Holds(c, x.t, x.s) {
      MeetsIsHolds(c, x.t, x.s);
    }
  }

  // ---------------------------------------------------------------- what is recorded

  /** The matched inputs: the event, and the reading of every condition. */
  ghost predicate RightInputs(m: map<string, Schemas.Matched>, spec: Spec, ev: Event, x: Context) {
    && "event" in m && m["event"] == Text(ev.eventType) && "eventId" in m && m["eventId"] == Text(ev.id)
    && forall c :: c in spec.conditions ==>
         c.field in m && m[c.field].Number? && Reads(x.t, x.s, c.field, m[c.field].number)
  }

  lemma {:induction false} InputOf(cs: seq<Condition>, ev: Event, t: Telemetry, s: VehicleState, c: Condition)
    requires c in cs
    ensures c.field in MatchedInputs(cs, ev, t, s)
    ensures MatchedInputs(cs, ev, t, s)[c.field] == Number(SeenValue(t, s, c.field))
  {
    var n := |cs| - 1;
    assert cs == cs[..n] + [cs[n]];
    if cs[n].field != c.field {
      InputOf(cs[..n], ev, t, s, c);
    }
  }

  lemma {:induction false} EventInput(cs: seq<Condition>, ev: Event, t: Telemetry, s: VehicleState)
    requires forall c :: c in cs ==> c.field != "event" && c.field != "eventId"
    ensures var m := MatchedInputs(cs, ev, t, s);
      "event" in m && m["event"] == Text(ev.eventType) && "eventId" in m && m["eventId"] == Text(ev.id)
  {
    if cs == [] {
      assert |"event"| == 5 && |"eventId"| == 7;
    } else {
      assert cs[|cs| - 1] in cs;
      EventInput(cs[..|cs| - 1], ev, t, s);
    }
  }

  lemma InputsAreRight(spec: Spec, ev: Event, x: Context)
    requires Matched(spec, ev, x)
    ensures RightInputs(MatchedInputs(spec.conditions, ev, x.t, x.s), spec, ev, x)
  {
    var cs := spec.conditions;
    forall c | c in cs
      ensures c.field != "event" && c.field != "eventId" && Reads(x.t, x.s, c.field, SeenValue(x.t, x.s, c.field))
    {
      assert Holds(c, x.t, x.s);
      var r :| Reads(x.t, x.s, c.field, r);
      FieldIsReading(x.t, x.s, c.field, r);
      NotAField();
    }
    EventInput(cs, ev, x.t, x.s);
    forall c | c in cs ensures c.field in MatchedInputs(cs, ev, x.t, x.s)
      && MatchedInputs(cs, ev, x.t, x.s)[c.field] == Number(SeenValue(x.t, x.s, c.field))
    {
      InputOf(cs, ev, x.t, x.s, c);
    }
  }

  lemma NotAField()
    ensures "event" !in {"speedKmh", "stateSpeedKmh", "fuelLevel"} && "eventId" !in {"speedKmh", "stateSpeedKmh", "fuelLevel"}
  {
    assert |"event"| == 5 && |"eventId"| == 7 && |"speedKmh"| == 8 && |"stateSpeedKmh"| == 13 && |"fuelLevel"| == 9;
  }

  /** Every condition with the value seen, in order. */
  ghost predicate RightConditions(seen: seq<(Condition, real)>, cs: seq<Condition>, x: Context) {
    |seen| == |cs| && forall i :: 0 <= i < |cs| ==> seen[i].0 == cs[i] && Reads(x.t, x.s, cs[i].field, seen[i].1)
  }

  lemma {:induction false} ConditionsAreRight(cs: seq<Condition>, x: Context)
    requires forall c :: c in cs ==> Holds(c, x.t, x.s)
    ensures RightConditions(Descriptions(cs, x.t, x.s), cs, x)
  {
    if cs != [] {
      var n := |cs| - 1;
      var c := cs[n];
      assert c in cs;
      ConditionsAreRight(cs[..n], x);
      var r :| Reads(x.t, x.s, c.field, r);
      FieldIsReading(x.t, x.s, c.field, r);
    }
  }

  /** The rule has something to emit, and it makes a valid event. */
  ghost predicate Emits(spec: Spec, x: Context) {
    && spec.emit != "" && Suffix(spec.emit).Some? && Suffix(spec.emit).value in TRANSITION_SUFFIXES
    && x.t.tenantId != "" && x.t.vehicleId != "" && x.t.timestamp != 0 && x.t.metadata.correlationId != ""
  }

  /** The trigger records that the rule fired on `ev`, why, and what it did. */
  ghost predicate Records(tr: Trigger, spec: Spec, ev: Event, x: Context) {
    && tr.ruleId == spec.id && tr.ruleVersion == spec.version && tr.vehicleId == x.t.vehicleId && tr.at == x.now
    && RightInputs(tr.matchedInputs, spec, ev, x) && RightConditions(tr.conditions, spec.conditions, x)
    && tr.actionsTaken == if Emits(spec, x) then ["emit:" + spec.emit] else []
  }

  /** The rule event says which rule version answered which event, and for which inputs. */
  ghost predicate AnswersTo(e: Event, spec: Spec, ev: Event, x: Context) {
    && e.eventType == spec.emit && e.ruleId == spec.id && e.ruleVersion == spec.version && e.causationId == ev.id
    && e.tenantId == x.t.tenantId && e.vehicleId == x.t.vehicleId && e.timestamp == x.t.timestamp
    && e.correlationId == x.t.metadata.correlationId && ValidEvent(e)
    && e.id == DeterministicId(spec.emit, x.t.vehicleId, x.t.timestamp, spec.id + "/" + spec.version)
    && e.payload.RuleMatch? && e.payload.ruleId == spec.id && e.payload.ruleVersion == spec.version
    && e.payload.matchedEvent == ev.eventType && RightInputs(e.payload.matchedInputs, spec, ev, x)
  }

  lemma EmissionMeaning(spec: Spec, ev: Event, x: Context)
    requires Matched(spec, ev, x)
    ensures var es := Emissions(spec, ev, x.t, x.s);
      if Emits(spec, x) then |es| == 1 && AnswersTo(es[0], spec, ev, x) else es == []
  {
    InputsAreRight(spec, ev, x);
  }

  lemma TriggerMeaning(spec: Spec, ev: Event, x: Context)
    requires Matched(spec, ev, x)
    ensures Records(TriggerOf(spec, ev, x.t, x.s, x.now), spec, ev, x)
  {
    InputsAreRight(spec, ev, x);
    ConditionsAreRight(spec.conditions, x);
    EmissionMeaning(spec, ev, x);
  }

  // ---------------------------------------------------------------- which events fire

  /** The recent fires are those after the cut. */
  lemma {:induction false} AfterMeaning(times: seq<int>, cut: int, time: int)
    ensures multiset(After(times, cut))[time] == if time > cut then multiset(times)[time] else 0
  {
    if times != [] {
      var n := |times| - 1;
      assert times == times[..n] + [times[n]];
      AfterMeaning(times[..n], cut, time);
    }
  }

  /** How many more fires a last fire and a log allow at this reading: none inside the cooldown, one when there is a
      cooldown, and otherwise what the hourly cap leaves. */
  function QuotaOf(last: Option<int>, log: seq<int>, spec: Spec, now: int): nat {
    var left := spec.maxActionsPerHour - |After(log, now - HOUR)|;
    if spec.cooldownSecs > 0 && last.Some? && now - last.value < spec.cooldownSecs * SECOND then 0
    else if left <= 0 then 0
    else if spec.cooldownSecs > 0 then 1
    else left
  }

  function Quota(v: Valves, key: string, spec: Spec, now: int): nat {
    QuotaOf(RuleSafety.LastOf(v, key), LogOf(v, key), spec, now)
  }

  lemma QuotaPruned(last: Option<int>, log: seq<int>, spec: Spec, now: int)
    ensures QuotaOf(last, After(log, now - HOUR), spec, now) == QuotaOf(last, log, spec, now)
  {
    RuleSafety.AfterAfter(log, now - HOUR, now - HOUR);
  }

  lemma QuotaFired(last: Option<int>, log: seq<int>, spec: Spec, now: int)
    requires QuotaOf(last, log, spec, now) > 0
    ensures QuotaOf(Some(now), After(log, now - HOUR) + [now], spec, now) == QuotaOf(last, log, spec, now) - 1
  {
    RuleSafety.AfterAfter(log, now - HOUR, now - HOUR);
    AfterNext(After(log, now - HOUR), now, now - HOUR);
  }

  lemma QuotaStep(v: Valves, key: string, spec: Spec, now: int)
    ensures var (fires, v') := ValveStep(v, key, spec, now);
      && (fires <==> Quota(v, key, spec, now) > 0)
      && Quota(v', key, spec, now) == if fires then Quota(v, key, spec, now) - 1 else 0
  {
    var last, log := RuleSafety.LastOf(v, key), LogOf(v, key);
    QuotaPruned(last, log, spec, now);
    if QuotaOf(last, log, spec, now) > 0 { QuotaFired(last, log, spec, now); }
  }

  /** For an event of the rule's type and vehicle, while the valves allow it: the rule fires if and only if every
      condition holds, and then it records and emits what it should. */
  lemma FiresIff(v: Valves, spec: Spec, ev: Event, x: Context)
    requires ev.eventType == spec.eventType && ev.vehicleId == x.t.vehicleId && Quota(v, VehicleKey(spec, x), spec, x.now) > 0
    ensures var o := EventStep(v, spec, ev, x);
      if forall c :: c in spec.conditions ==> Holds(c, x.t, x.s) then
        && |o.triggers| == 1 && Records(o.triggers[0], spec, ev, x)
        && (if Emits(spec, x) then |o.events| == 1 && AnswersTo(o.events[0], spec, ev, x) else o.events == [])
      else o.triggers == [] && o.events == []
  {
    MatchesIsMatched(spec, ev, x);
    QuotaStep(v, VehicleKey(spec, x), spec, x.now);
    if Matched(spec, ev, x) {
      TriggerMeaning(spec, ev, x);
      EmissionMeaning(spec, ev, x);
    }
  }

  /** The events among the first `n` that the rule matches, in order. */
  ghost function MatchedUpTo(spec: Spec, x: Context, n: nat): (evs: seq<Event>)
    requires n <= |x.evs|
  {
    if n == 0 then []
    else if Matched(spec, x.evs[n - 1], x) then MatchedUpTo(spec, x, n - 1) + [x.evs[n - 1]]
    else MatchedUpTo(spec, x, n - 1)
  }

  function Min(a: nat, b: nat): nat {
    if a <= b then a else b
  }

  /** A rule's outcome: the first `m` of the matched events fired, each with its trigger and, if there is one, its event. */
  ghost predicate FiredFirst(o: Outcome, spec: Spec, x: Context, matched: seq<Event>, m: nat) {
    && m <= |matched| && |o.triggers| == m && |o.events| == (if Emits(spec, x) then m else 0)
    && (forall j :: 0 <= j < m ==> Records(o.triggers[j], spec, matched[j], x))
    && (forall j :: 0 <= j < |o.events| ==> AnswersTo(o.events[j], spec, matched[j], x))
  }

  lemma FiredNext(o: Outcome, o': Outcome, spec: Spec, x: Context, matched: seq<Event>, ev: Event)
    requires FiredFirst(o, spec, x, matched, |matched|) && Matched(spec, ev, x)
    requires o'.triggers == [TriggerOf(spec, ev, x.t, x.s, x.now)] && o'.events == Emissions(spec, ev, x.t, x.s)
    ensures FiredFirst(Then(o, o'), spec, x, matched + [ev], |matched| + 1)
  {
    TriggerMeaning(spec, ev, x);
    EmissionMeaning(spec, ev, x);
  }

  lemma FiredSame(o: Outcome, v: Valves, spec: Spec, x: Context, matched: seq<Event>, ev: Event, m: nat)
    requires FiredFirst(o, spec, x, matched, m)
    ensures FiredFirst(Then(o, Outcome(v, [], [])), spec, x, matched, m)
    ensures FiredFirst(Then(o, Outcome(v, [], [])), spec, x, matched + [ev], m)
  {
    Unchanged(o.events);
    Unchanged(o.triggers);
  }

  /** The matched events fired in order until the quota was used up, and what is left of it is left in the valves. */
  ghost predicate FiredUpTo(o: Outcome, quota: nat, spec: Spec, x: Context, matched: seq<Event>) {
    var m := Min(|matched|, quota);
    FiredFirst(o, spec, x, matched, m) && Quota(o.valves, VehicleKey(spec, x), spec, x.now) == quota - m
  }

  lemma StepShape(v: Valves, spec: Spec, ev: Event, x: Context)
    ensures var o, key := EventStep(v, spec, ev, x), VehicleKey(spec, x);
      var left := Quota(v, key, spec, x.now);
      if Matched(spec, ev, x) && left > 0 then
        && o.triggers == [TriggerOf(spec, ev, x.t, x.s, x.now)] && o.events == Emissions(spec, ev, x.t, x.s)
        && Quota(o.valves, key, spec, x.now) == left - 1
      else o.triggers == [] && o.events == [] && Quota(o.valves, key, spec, x.now) == left
  {
    MatchesIsMatched(spec, ev, x);
    QuotaStep(v, VehicleKey(spec, x), spec, x.now);
  }

  lemma FiredStep(o: Outcome, o': Outcome, quota: nat, spec: Spec, x: Context, matched: seq<Event>, ev: Event)
    requires FiredUpTo(o, quota, spec, x, matched)
    requires var key := VehicleKey(spec, x); var left := Quota(o.valves, key, spec, x.now);
      if Matched(spec, ev, x) && left > 0 then
        && o'.triggers == [TriggerOf(spec, ev, x.t, x.s, x.now)] && o'.events == Emissions(spec, ev, x.t, x.s)
        && Quota(o'.valves, key, spec, x.now) == left - 1
      else o'.triggers == [] && o'.events == [] && Quota(o'.valves, key, spec, x.now) == left
    ensures FiredUpTo(Then(o, o'), quota, spec, x, if Matched(spec, ev, x) then matched + [ev] else matched)
  {
    if Matched(spec, ev, x) && Quota(o.valves, VehicleKey(spec, x), spec, x.now) > 0 {
      FiredNext(o, o', spec, x, matched, ev);
    } else {
      assert o' == Outcome(o'.valves, [], []);
      FiredSame(o, o'.valves, spec, x, matched, ev, Min(|matched|, quota));
    }
  }

  /** One rule over all the events of a point: the matched events fire in order until the valves' quota is used up. */
  lemma {:induction false} RuleRunMeaning(v: Valves, spec: Spec, x: Context, n: nat)
    requires n <= |x.evs|
    ensures FiredUpTo(RuleRun(v, spec, x, n), Quota(v, VehicleKey(spec, x), spec, x.now), spec, x, MatchedUpTo(spec, x, n))
  {
    if n == 0 {
      NothingFired(v, Quota(v, VehicleKey(spec, x), spec, x.now), spec, x);
    } else {
      RuleRunMeaning(v, spec, x, n - 1);
      var o, ev := RuleRun(v, spec, x, n - 1), x.evs[n - 1];
      FiredEvent(o, Quota(v, VehicleKey(spec, x), spec, x.now), spec, x, MatchedUpTo(spec, x, n - 1), ev);
    }
  }

  lemma NothingFired(v: Valves, quota: nat, spec: Spec, x: Context)
    requires quota == Quota(v, VehicleKey(spec, x), spec, x.now)
    ensures FiredUpTo(Outcome(v, [], []), quota, spec, x, [])
  {
  }

  lemma FiredEvent(o: Outcome, quota: nat, spec: Spec, x: Context, matched: seq<Event>, ev: Event)
    ensures FiredUpTo(o, quota, spec, x, matched) ==>
      FiredUpTo(Then(o, EventStep(o.valves, spec, ev, x)), quota, spec, x, if Matched(spec, ev, x) then matched + [ev] else matched)
  {
    StepShape(o.valves, spec, ev, x);
    if FiredUpTo(o, quota, spec, x, matched) {
      FiredStep(o, EventStep(o.valves, spec, ev, x), quota, spec, x, matched, ev);
    }
  }

  // ---------------------------------------------------------------- the audit trail

  /** Every trigger of an evaluation records a published rule that matched one of the events. */
  ghost predicate Justified(tr: Trigger, rules: map<string, Rule>, x: Context) {
    exists k, ev :: k in rules && ev in x.evs && Matched(rules[k].spec, ev, x) && Records(tr, rules[k].spec, ev, x)
  }

  ghost predicate Answers(e: Event, rules: map<string, Rule>, x: Context) {
    exists k, ev :: k in rules && ev in x.evs && Matched(rules[k].spec, ev, x) && AnswersTo(e, rules[k].spec, ev, x)
  }

  lemma {:induction false} MatchedMembers(spec: Spec, x: Context, n: nat)
    requires n <= |x.evs|
    ensures forall ev :: ev in MatchedUpTo(spec, x, n) ==> ev in x.evs && Matched(spec, ev, x)
  {
    if n > 0 { MatchedMembers(spec, x, n - 1); }
  }

  lemma RuleOutcomeJustified(v: Valves, rules: map<string, Rule>, k: string, x: Context)
    requires k in rules
    ensures forall tr :: tr in RuleRun(v, rules[k].spec, x, |x.evs|).triggers ==> Justified(tr, rules, x)
    ensures forall e :: e in RuleRun(v, rules[k].spec, x, |x.evs|).events ==> Answers(e, rules, x)
  {
    var spec := rules[k].spec;
    var o, matched := RuleRun(v, spec, x, |x.evs|), MatchedUpTo(spec, x, |x.evs|);
    RuleRunMeaning(v, spec, x, |x.evs|);
    MatchedMembers(spec, x, |x.evs|);
    forall tr | tr in o.triggers ensures Justified(tr, rules, x) {
      var j :| 0 <= j < |o.triggers| && o.triggers[j] == tr;
      assert matched[j] in matched && Records(tr, spec, matched[j], x);
    }
    forall e | e in o.events ensures Answers(e, rules, x) {
      var j :| 0 <= j < |o.events| && o.events[j] == e;
      assert matched[j] in matched && AnswersTo(e, spec, matched[j], x);
    }
  }

  /** Every trigger names a published rule, an event that it matched, and the inputs that met its conditions. */
  lemma {:induction false} TriggersAreJustified(v: Valves, rules: map<string, Rule>, order: seq<string>, x: Context, tr: Trigger)
    requires tr in EvaluateIn(v, rules, order, x).triggers
    ensures Justified(tr, rules, x)
  {
    var n := |order| - 1;
    var o := EvaluateIn(v, rules, order[..n], x);
    if tr in o.triggers {
      TriggersAreJustified(v, rules, order[..n], x, tr);
    } else {
      RuleOutcomeJustified(o.valves, rules, order[n], x);
    }
  }

  /** Every rule event is valid and answers an event that its rule matched. */
  lemma {:induction false} RuleEventsAreAnswers(v: Valves, rules: map<string, Rule>, order: seq<string>, x: Context, e: Event)
    requires e in EvaluateIn(v, rules, order, x).events
    ensures Answers(e, rules, x)
  {
    var n := |order| - 1;
    var o := EvaluateIn(v, rules, order[..n], x);
    if e in o.events {
      RuleEventsAreAnswers(v, rules, order[..n], x, e);
    } else {
      RuleOutcomeJustified(o.valves, rules, order[n], x);
    }
  }

  /** And every published rule has its say: in an evaluation of the whole map its matched events fire up to its quota. */
  lemma EveryRuleHasItsSay(v: Valves, rules: map<string, Rule>, order: seq<string>, x: Context, k: string)
    requires WellKeyed(rules) && Enumerates(order, rules) && k in rules
    ensures var spec := rules[k].spec; var o, matched := Alone(v, rules, x, k), MatchedUpTo(spec, x, |x.evs|);
      && FiredFirst(o, spec, x, matched, Min(|matched|, Quota(v, VehicleKey(spec, x), spec, x.now)))
      && (forall tr :: tr in o.triggers ==> tr in EvaluateIn(v, rules, order, x).triggers)
      && (forall e :: e in o.events ==> e in EvaluateIn(v, rules, order, x).events)
  {
    RuleRunMeaning(v, rules[k].spec, x, |x.evs|);
    RulesAreIndependent(v, rules, order, x);
    InCollection(order, AloneTriggers(v, rules, x), k);
    InCollection(order, AloneEvents(v, rules, x), k);
  }

  lemma {:induction false} InCollection<K, T>(keys: seq<K>, f: K -> seq<T>, k: K)
    requires k in keys
    ensures forall y :: y in f(k) ==> y in Permutations.Collect(keys, f)
  {
    var n := |keys| - 1;
    if keys[n] != k {
      assert k in keys[..n];
      InCollection(keys[..n], f, k);
    }
  }
}
