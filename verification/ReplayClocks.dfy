/** Without rules a replay does not depend on its clock readings, as long as they stay inside one time to live. */
module ReplayClocks {
  import opened Schemas
  import opened Pipeline
  import opened PipelineRuns
  import opened Sorting
  import opened Replay
  import opened ReplayTheorems
  import EventBus
  import Faults

  /** All dedup readings lie in one time to live that begins at `lo`. */
  ghost predicate Within(a: Ambient, lo: int, ttl: int) {
    forall n: nat :: lo <= a.clocks(n).dedup < lo + ttl
  }

  /** No point is ahead of the skew bound of any reading. */
  ghost predicate PastSkew(a: Ambient, points: seq<Telemetry>) {
    forall n: nat, t :: t in points ==> t.timestamp <= a.clocks(n).skew + MAX_FUTURE_SKEW
  }

  ghost predicate SeenSince(seen: map<string, int>, lo: int) {
    forall key :: key in seen ==> lo <= seen[key]
  }

  /** Two cores that differ at most in when they saw their keys. */
  ghost predicate AlikeButTimes(c: Core, d: Core) {
    c == d.(seen := c.seen) && c.seen.Keys == d.seen.Keys
  }

  lemma AbsorbAlike(env: Setup, c: Core, d: Core, x: Arrival, y: Arrival)
    requires AlikeButTimes(c, d) && x.t == y.t && x.policy == y.policy && x.policy.rules.None?
    ensures Absorb(env, c, x).1 == Absorb(env, d, y).1 && AlikeButTimes(Absorb(env, c, x).0, Absorb(env, d, y).0)
  {
  }

  lemma IngestAlike(env: Setup, c: Core, d: Core, x: Arrival, y: Arrival, lo: int, mo: int)
    requires AlikeButTimes(c, d) && x.t == y.t && x.policy == y.policy && x.policy.rules.None?
    requires Refusal(x.t, x.clock) == Refusal(y.t, y.clock)
    requires SeenSince(c.seen, lo) && lo <= x.clock.dedup < lo + env.ttl
    requires SeenSince(d.seen, mo) && mo <= y.clock.dedup < mo + env.ttl
    ensures Ingest(env, c, x).1 == Ingest(env, d, y).1 && AlikeButTimes(Ingest(env, c, x).0, Ingest(env, d, y).0)
    ensures SeenSince(Ingest(env, c, x).0.seen, lo) && SeenSince(Ingest(env, d, y).0.seen, mo)
  {
    IngestOutline(env, c, x);
    IngestOutline(env, d, y);
    if Ingest(env, c, x).1.Accepted? {
      var key := DedupKey(x.t);
      var c1, d1 := c.(seen := c.seen[key := x.clock.dedup]), d.(seen := d.seen[key := y.clock.dedup]);
      FreshIsAbsorbed(env, c, c1, x);
      FreshIsAbsorbed(env, d, d1, y);
      AbsorbAlike(env, c1, d1, x, y);
    }
  }

  /** The same error at the same point, or the same events and memory up to when keys were seen. */
  ghost predicate SameButTimes(p: Progress, q: Progress) {
    if p.Halted? then p == q
    else q.Going? && AlikeButTimes(p.core, q.core) && p.events == q.events && p.attempts == q.attempts
  }

  ghost predicate Fresh(p: Progress, lo: int) {
    p.Going? ==> SeenSince(p.core.seen, lo)
  }

  lemma AdvanceAlike(env: Setup, p: Progress, q: Progress, x: Arrival, y: Arrival, lo: int, mo: int, outcomes: EventBus.Outcomes)
    requires SameButTimes(p, q) && Fresh(p, lo) && Fresh(q, mo)
    requires x.t == y.t && x.policy == y.policy && x.policy.rules.None? && Refusal(x.t, x.clock) == Refusal(y.t, y.clock)
    requires lo <= x.clock.dedup < lo + env.ttl && mo <= y.clock.dedup < mo + env.ttl
    ensures SameButTimes(Advance(env, p, x, outcomes), Advance(env, q, y, outcomes))
    ensures Fresh(Advance(env, p, x, outcomes), lo) && Fresh(Advance(env, q, y, outcomes), mo)
  {
    if p.Going? {
      IngestAlike(env, p.core, q.core, x, y, lo, mo);
    }
  }

  /** Two replays of the same points without rules, each inside its own time to live, go alike. */
  lemma {:induction false} ReplayIgnoresClocks(env: Setup, points: seq<Telemetry>, a: Ambient, b: Ambient, lo: int, mo: int,
                                               outcomes: EventBus.Outcomes)
    requires a.policy == b.policy && a.policy.rules.None?
    requires Within(a, lo, env.ttl) && Within(b, mo, env.ttl) && PastSkew(a, points) && PastSkew(b, points)
    ensures SameButTimes(Replayed(env, points, a, outcomes), Replayed(env, points, b, outcomes))
    ensures Fresh(Replayed(env, points, a, outcomes), lo) && Fresh(Replayed(env, points, b, outcomes), mo)
  {
    if points != [] {
      var front, t, n := points[..|points| - 1], points[|points| - 1], |points| - 1;
      SplitLast(points);
      ReplayIgnoresClocks(env, front, a, b, lo, mo, outcomes);
      assert t in points;
      assert lo <= a.clocks(n).dedup < lo + env.ttl && mo <= b.clocks(n).dedup < mo + env.ttl;
      assert t.timestamp <= a.clocks(n).skew + MAX_FUTURE_SKEW && t.timestamp <= b.clocks(n).skew + MAX_FUTURE_SKEW;
      ReplayedLast(env, front, t, a, outcomes);
      ReplayedLast(env, front, t, b, outcomes);
      AdvanceAlike(env, Replayed(env, front, a, outcomes), Replayed(env, front, b, outcomes), ArrivalAt(t, n, a), ArrivalAt(t, n, b),
                   lo, mo, outcomes);
    }
  }

  /** Without rules a replay absorbs injected faults under any clocks that stay inside one time to live and past every
      skew bound: the same error at the same point, or the same events, log, states and detector and geofence memory. */
  lemma ReplayAbsorbsFaultsAtAnyClock(
    env: Setup, points: seq<Telemetry>, duplicateRate: real, outOfOrderRate: real, draws: Faults.Draws,
    clean: seq<Telemetry>, dirty: seq<Telemetry>, a: Ambient, b: Ambient, lo: int, mo: int, outcomes: EventBus.Outcomes)
    requires SortOf(clean, points) && SortOf(dirty, Faults.Faulted(points, duplicateRate, outOfOrderRate, draws))
    requires DistinctPairs(Faults.Faulted(points, duplicateRate, outOfOrderRate, draws))
    requires a.policy == b.policy && a.policy.rules.None?
    requires Within(a, lo, env.ttl) && Within(b, mo, env.ttl) && PastSkew(a, dirty) && PastSkew(b, dirty)
    ensures SameButTimes(Replayed(env, dirty, a, outcomes), Replayed(env, clean, b, outcomes))
  {
    var clock := b.clocks(0);
    var steady := b.(clocks := _ => clock, orders := _ => []);
    assert Within(steady, mo, env.ttl) && PastSkew(steady, dirty) && env.ttl > 0 by {
      assert mo <= b.clocks(0).dedup < mo + env.ttl;
    }
    ReplayIgnoresClocks(env, dirty, a, steady, lo, mo, outcomes);
    SteadyReplayAbsorbsFaults(env, points, duplicateRate, outOfOrderRate, draws, clean, dirty, steady, clock, [], outcomes);
    CleanIsPart(points, duplicateRate, outOfOrderRate, draws, clean, dirty, clock);
    ReplayIgnoresClocks(env, clean, steady, b, mo, mo, outcomes);
  }

  lemma CleanIsPart(points: seq<Telemetry>, duplicateRate: real, outOfOrderRate: real, draws: Faults.Draws,
                    clean: seq<Telemetry>, dirty: seq<Telemetry>, clock: Clock)
    requires SortOf(clean, points) && SortOf(dirty, Faults.Faulted(points, duplicateRate, outOfOrderRate, draws))
    requires DistinctPairs(Faults.Faulted(points, duplicateRate, outOfOrderRate, draws))
    ensures forall t :: t in clean ==> t in dirty
  {
    FaultsOnlyAddCopies(points, duplicateRate, outOfOrderRate, draws, clean, dirty, clock);
    FilterMembers(dirty, (t: Telemetry) => t in points);
  }
}
