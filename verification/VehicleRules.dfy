/** Rules do not carry anything from one vehicle to another, as long as vehicle ids hold no slash. */
module VehicleRules {
  import opened Collections
  import opened Schemas
  import opened StateStore
  import opened Pipeline
  import opened PipelineRuns
  import Rules

  function OwnKey(k: string, vehicleId: string): string {
    k + "/" + vehicleId
  }

  /** Two valve memories that hold the same for a vehicle. */
  ghost predicate ValvesAgree(v: Rules.Valves, w: Rules.Valves, vehicleId: string) {
    forall k :: Rules.Entry(v, OwnKey(k, vehicleId)) == Rules.Entry(w, OwnKey(k, vehicleId))
  }

  lemma RuleAgrees(v: Rules.Valves, w: Rules.Valves, spec: Rules.Spec, x: Rules.Context)
    requires ValvesAgree(v, w, x.t.vehicleId)
    ensures var a, b := Rules.RuleRun(v, spec, x, |x.evs|), Rules.RuleRun(w, spec, x, |x.evs|);
      a.events == b.events && a.triggers == b.triggers && ValvesAgree(a.valves, b.valves, x.t.vehicleId)
  {
    var mine := Rules.VehicleKey(spec, x);
    assert mine == OwnKey(Rules.Key(spec.id, spec.version), x.t.vehicleId);
    Rules.RuleIsLocal(v, w, spec, x, |x.evs|);
    Rules.RuleIsLocal(w, v, spec, x, |x.evs|);
  }

  /** An evaluation for a vehicle depends on, and leaves, what the valves hold for that vehicle. */
  lemma {:induction false} EvaluationAgrees(v: Rules.Valves, w: Rules.Valves, rules: map<string, Rules.Rule>, order: seq<string>,
                                            x: Rules.Context)
    requires ValvesAgree(v, w, x.t.vehicleId)
    ensures var a, b := Rules.EvaluateIn(v, rules, order, x), Rules.EvaluateIn(w, rules, order, x);
      a.events == b.events && a.triggers == b.triggers && ValvesAgree(a.valves, b.valves, x.t.vehicleId)
  {
    if order != [] {
      var n := |order| - 1;
      EvaluationAgrees(v, w, rules, order[..n], x);
      if order[n] in rules {
        RuleAgrees(Rules.EvaluateIn(v, rules, order[..n], x).valves, Rules.EvaluateIn(w, rules, order[..n], x).valves,
                   rules[order[n]].spec, x);
      }
    }
  }

  lemma OtherKey(k: string, vehicleId: string, spec: Rules.Spec, x: Rules.Context)
    requires '/' !in vehicleId && '/' !in x.t.vehicleId && vehicleId != x.t.vehicleId
    ensures OwnKey(k, vehicleId) != Rules.VehicleKey(spec, x)
  {
    if OwnKey(k, vehicleId) == Rules.VehicleKey(spec, x) {
      CutLast(k, vehicleId, Rules.Key(spec.id, spec.version), x.t.vehicleId, '/');
    }
  }

  /** And it leaves the valves of other vehicles alone. */
  lemma {:induction false} EvaluationElsewhere(v: Rules.Valves, rules: map<string, Rules.Rule>, order: seq<string>, x: Rules.Context,
                                               vehicleId: string)
    requires '/' !in vehicleId && '/' !in x.t.vehicleId && vehicleId != x.t.vehicleId
    ensures ValvesAgree(Rules.EvaluateIn(v, rules, order, x).valves, v, vehicleId)
  {
    if order != [] {
      var n := |order| - 1;
      EvaluationElsewhere(v, rules, order[..n], x, vehicleId);
      if order[n] in rules {
        var before, spec := Rules.EvaluateIn(v, rules, order[..n], x).valves, rules[order[n]].spec;
        Rules.RuleIsLocal(before, before, spec, x, |x.evs|);
        forall k ensures OwnKey(k, vehicleId) != Rules.VehicleKey(spec, x) {
          OtherKey(k, vehicleId, spec, x);
        }
      }
    }
  }

  // ---------------------------------------------------------------- one point

  lemma AbsorbRules(env: Setup, c: Core, d: Core, x: Arrival)
    requires ViewOf(c, x.t.vehicleId) == ViewOf(d, x.t.vehicleId) && ValvesAgree(c.valves, d.valves, x.t.vehicleId)
    ensures Absorb(env, c, x).1 == Absorb(env, d, x).1
    ensures ValvesAgree(Absorb(env, c, x).0.valves, Absorb(env, d, x).0.valves, x.t.vehicleId)
  {
    AbsorbIsLocal(env, c, d, x);
    if x.policy.rules.Some? {
      var next := NextState(c.states, x.t);
      assert next == NextState(d.states, x.t);
      EvaluationAgrees(c.valves, d.valves, x.policy.rules.value, x.order,
                       Rules.Context(x.t, next, Absorb(env, c, x).1.derived, x.clock.rules));
    }
  }

  /** What a point does to the rules of its own vehicle. */
  lemma OwnRules(env: Setup, c: Core, d: Core, x: Arrival)
    requires ViewOf(c, x.t.vehicleId) == ViewOf(d, x.t.vehicleId) && SeenAt(c, DedupKey(x.t)) == SeenAt(d, DedupKey(x.t))
    requires ValvesAgree(c.valves, d.valves, x.t.vehicleId)
    ensures Ingest(env, c, x).1 == Ingest(env, d, x).1
    ensures ValvesAgree(Ingest(env, c, x).0.valves, Ingest(env, d, x).0.valves, x.t.vehicleId)
  {
    IngestOutline(env, c, x);
    IngestOutline(env, d, x);
    if Ingest(env, c, x).1.Accepted? {
      var key, now := DedupKey(x.t), x.clock.dedup;
      var c1, d1 := c.(seen := c.seen[key := now]), d.(seen := d.seen[key := now]);
      FreshIsAbsorbed(env, c, c1, x);
      FreshIsAbsorbed(env, d, d1, x);
      AbsorbRules(env, c1, d1, x);
    }
  }

  /** What a point does to the rules of another vehicle: nothing. */
  lemma OtherRules(env: Setup, c: Core, x: Arrival, v: string)
    requires x.t.vehicleId != v && '/' !in v && '/' !in x.t.vehicleId
    ensures ValvesAgree(Ingest(env, c, x).0.valves, c.valves, v)
  {
    IngestOutline(env, c, x);
    if Ingest(env, c, x).1.Accepted? && x.policy.rules.Some? {
      var c1 := c.(seen := c.seen[DedupKey(x.t) := x.clock.dedup]);
      FreshIsAbsorbed(env, c, c1, x);
      var next := NextState(c.states, x.t);
      EvaluationElsewhere(c.valves, x.policy.rules.value, x.order,
                          Rules.Context(x.t, next, Absorb(env, c1, x).1.derived, x.clock.rules), v);
    }
  }

  // ---------------------------------------------------------------- streams

  ghost predicate SlashFree(xs: seq<Arrival>) {
    forall i :: 0 <= i < |xs| ==> '/' !in xs[i].t.vehicleId
  }

  /** After `n` arrivals the mixed pipeline and the vehicle's own hold the same valves for it. */
  lemma {:induction false} ValvesStayOwn(env: Setup, xs: seq<Arrival>, n: nat, v: string)
    requires KeysApart(xs) && SlashFree(xs) && '/' !in v && n <= |xs|
    ensures ValvesAgree(CoreAfter(env, xs[..n]).valves, CoreAfter(env, OwnArrivals(xs[..n], v)).valves, v)
  {
    if n > 0 {
      var m := n - 1;
      var x, front := xs[m], xs[..m];
      ValvesStayOwn(env, xs, m, v);
      CoreNext(env, xs, m);
      NextPrefix(xs, m);
      OwnNext(front, x, v);
      if x.t.vehicleId == v {
        Append(env, OwnArrivals(front, v), x);
        SameVerdictAlone(env, xs, m, v);
      } else {
        OtherRules(env, CoreAfter(env, front), x, v);
      }
    }
  }

  lemma SameVerdictAlone(env: Setup, xs: seq<Arrival>, m: nat, v: string)
    requires KeysApart(xs) && m < |xs| && xs[m].t.vehicleId == v
    requires ValvesAgree(CoreAfter(env, xs[..m]).valves, CoreAfter(env, OwnArrivals(xs[..m], v)).valves, v)
    ensures var c, d := CoreAfter(env, xs[..m]), CoreAfter(env, OwnArrivals(xs[..m], v));
      && Ingest(env, c, xs[m]).1 == Ingest(env, d, xs[m]).1
      && ValvesAgree(Ingest(env, c, xs[m]).0.valves, Ingest(env, d, xs[m]).0.valves, v)
  {
    CoresAgree(env, xs, m, v);
    assert KeyOf(xs, v, DedupKey(xs[m].t));
    OwnRules(env, CoreAfter(env, xs[..m]), CoreAfter(env, OwnArrivals(xs[..m], v)), xs[m]);
  }

  /** All events of one vehicle's points in a stream, rule events included. */
  ghost function EventsOf(env: Setup, xs: seq<Arrival>, n: nat, v: string): (es: seq<Event>)
    requires n <= |xs|
  {
    if n == 0 then []
    else if xs[n - 1].t.vehicleId == v then EventsOf(env, xs, n - 1, v) + Events(VerdictAt(env, xs, n - 1))
    else EventsOf(env, xs, n - 1, v)
  }

  /** When no two vehicles share a dedup key and no vehicle id holds a slash, any interleaving gives each vehicle the same
      events, rule events included, and the same valves as its own stream alone. */
  lemma {:induction false} RulesDoNotInterfere(env: Setup, xs: seq<Arrival>, n: nat, v: string)
    requires KeysApart(xs) && SlashFree(xs) && '/' !in v && n <= |xs|
    ensures EventsOf(env, xs, n, v) == Computed(env, OwnArrivals(xs[..n], v))
    ensures ValvesAgree(CoreAfter(env, xs[..n]).valves, CoreAfter(env, OwnArrivals(xs[..n], v)).valves, v)
  {
    ValvesStayOwn(env, xs, n, v);
    if n > 0 {
      var m := n - 1;
      RulesDoNotInterfere(env, xs, m, v);
      NextPrefix(xs, m);
      OwnNext(xs[..m], xs[m], v);
      if xs[m].t.vehicleId == v {
        SameVerdictAlone(env, xs, m, v);
        Append(env, OwnArrivals(xs[..m], v), xs[m]);
      }
    }
  }
}
