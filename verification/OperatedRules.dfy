/** The safety valves of an engine in operation: caps and cooldowns over the whole trigger trace. */
module OperatedRules {
  import opened Collections
  import opened Schemas
  import opened Pipeline
  import opened PipelineRuns
  import opened Operations
  import Detectors
  import Rules
  import RuleSafety
  import EventBus

  /** The clock of the rules never goes backward. */
  ghost predicate RulesClockRuns(actions: seq<Action>) {
    forall i, j :: 0 <= i < j < |actions| && actions[i].Arrive? && actions[j].Arrive? ==>
      actions[i].clock.rules <= actions[j].clock.rules
  }

  /** No reading before action `n` is later than `now`. */
  ghost predicate ReadBy(actions: seq<Action>, n: nat, now: int)
    requires n <= |actions|
  {
    forall i :: 0 <= i < n && actions[i].Arrive? ==> actions[i].clock.rules <= now
  }

  /** The rules are well keyed, caps and cooldowns hold over the trace, and the valves are recoverable from it. */
  ghost predicate Guarded(policy: Policy, valves: Rules.Valves, trace: seq<Rules.Trigger>, now: int) {
    policy.rules.Some? ==> Rules.WellKeyed(policy.rules.value) && RuleSafety.Kept(policy.rules.value, valves, trace, now)
  }

  /** What a point does to the rules: nothing, or one evaluation at its clock reading. */
  lemma RulesOfPoint(env: Setup, c: Core, x: Arrival, outcomes: EventBus.Outcomes, n: nat) returns (context: Rules.Context)
    requires x.policy.rules.Some?
    ensures context.now == x.clock.rules
    ensures var r, o := Answer(env, c, x, outcomes, n), Rules.EvaluateIn(c.valves, x.policy.rules.value, x.order, context);
      || (r.core.valves == c.valves && r.triggers == [])
      || (r.core.valves == o.valves && r.triggers == o.triggers)
  {
    var next := NextState(c.states, x.t);
    var derived := Detectors.DetectSpec(c.memory, env.detectors, x.t, next.motion).1 + Fenced(x.policy.fences, c.members, x.t).1;
    context := Rules.Context(x.t, next, derived, x.clock.rules);
    IngestOutline(env, c, x);
  }

  lemma PointGuarded(env: Setup, w: World, a: Action, outcomes: EventBus.Outcomes, now: int)
    requires a.Arrive? && OrderFits(w.policy, a.order) && a.clock.rules <= now
    requires Guarded(w.policy, w.core.valves, w.triggers, a.clock.rules)
    ensures var w' := Act(env, w, a, outcomes); Guarded(w'.policy, w'.core.valves, w'.triggers, now)
  {
    if w.policy.rules.Some? {
      var x, rules := ArrivalOf(a, w.policy), w.policy.rules.value;
      var context := RulesOfPoint(env, w.core, x, outcomes, w.attempts);
      Unchanged(w.triggers);
      RuleSafety.EvaluateKeeps(rules, w.core.valves, w.triggers, a.order, |a.order|, context);
      WholePrefix(a.order);
      var r := Answer(env, w.core, x, outcomes, w.attempts);
      RuleSafety.LaterClock(r.core.valves, w.triggers + r.triggers, a.clock.rules, now);
    }
  }

  lemma RuleGuarded(policy: Policy, valves: Rules.Valves, trace: seq<Rules.Trigger>, now: int, a: Action)
    requires !a.Arrive? && Guarded(policy, valves, trace, now)
    ensures Guarded(Amend(policy, a), valves, trace, now)
  {
    if policy.rules.Some? && a.PublishRule? {
      RuleSafety.PublishKeeps(policy.rules.value, trace, a.spec, a.at);
    }
  }

  lemma StartGuarded(policy: Policy, now: int)
    requires policy.rules.Some? ==> Rules.WellKeyed(policy.rules.value)
    ensures Guarded(policy, FRESH.valves, [], now)
  {
    if policy.rules.Some? {
      forall key ensures RuleSafety.Recoverable(FRESH.valves, [], key, now) {
        assert RuleSafety.Times([], key) == [];
      }
      var rules := policy.rules.value;
      forall k, vehicleId | k in rules
        ensures RuleSafety.Capped([], rules[k].spec, vehicleId) && RuleSafety.Cooled([], rules[k].spec, vehicleId)
      {
        RuleSafety.NoFires([], rules[k].spec, vehicleId);
      }
    }
  }

  lemma {:induction false} GuardedAt(env: Setup, policy: Policy, actions: seq<Action>, n: nat, outcomes: EventBus.Outcomes, now: int)
    requires OrdersFit(policy, actions) && RulesClockRuns(actions) && n <= |actions| && ReadBy(actions, n, now)
    requires policy.rules.Some? ==> Rules.WellKeyed(policy.rules.value)
    ensures var w := Operated(env, Start(policy), actions[..n], outcomes); Guarded(w.policy, w.core.valves, w.triggers, now)
  {
    if n == 0 {
      StartGuarded(policy, now);
    } else {
      var m := n - 1;
      var w, a := Operated(env, Start(policy), actions[..m], outcomes), actions[m];
      OperatedNext(env, Start(policy), actions, m, outcomes);
      GuardedAt(env, policy, actions, m, outcomes, if a.Arrive? then a.clock.rules else now);
      if a.Arrive? {
        PolicyOfWorld(env, Start(policy), actions[..m], outcomes);
        PointGuarded(env, w, a, outcomes, now);
      } else {
        RuleGuarded(w.policy, w.core.valves, w.triggers, now, a);
      }
    }
  }

  /** In every run of the engine whose rules clock never goes backward, whatever else happens in it: every hour holds at
      most MaxActionsPerHour fires of a rule version for a vehicle, and fires keep their cooldown. */
  lemma CapsHoldInOperation(env: Setup, policy: Policy, actions: seq<Action>, outcomes: EventBus.Outcomes)
    requires OrdersFit(policy, actions) && RulesClockRuns(actions)
    requires policy.rules.Some? ==> Rules.WellKeyed(policy.rules.value)
    ensures var w := Operated(env, Start(policy), actions, outcomes);
      w.policy.rules.Some? ==> RuleSafety.Safe(w.policy.rules.value, w.triggers)
  {
    var now := LastReading(actions);
    GuardedAt(env, policy, actions, |actions|, outcomes, now);
    WholePrefix(actions);
  }

  lemma LastReading(actions: seq<Action>) returns (now: int)
    ensures ReadBy(actions, |actions|, now)
  {
    now := 0;
    var i := 0;
    while i < |actions|
      invariant i <= |actions| && ReadBy(actions, i, now)
    {
      if actions[i].Arrive? && actions[i].clock.rules > now { now := actions[i].clock.rules; }
      i := i + 1;
    }
  }
}
