/** What replay promises: event-time order, agreement with the rebuild, and indifference to injected faults. */
module ReplayTheorems {
  import opened Collections
  import opened Schemas
  import opened VehicleStates
  import opened Pipeline
  import opened PipelineRuns
  import opened Sorting
  import opened Replay
  import opened ComputedEvents
  import StateStore
  import Rebuild
  import Detectors
  import Rules
  import EventBus
  import Faults

  // ---------------------------------------------------------------- event-time order

  ghost predicate TimeOrdered(xs: seq<Arrival>) {
    forall i, j :: 0 <= i < j < |xs| ==> xs[i].t.timestamp <= xs[j].t.timestamp
  }

  lemma LoggedBefore(env: Setup, xs: seq<Arrival>, n: nat, t: Telemetry)
    requires TimeOrdered(xs) && n < |xs| && t in CoreAfter(env, xs[..n]).log
    ensures t.timestamp <= xs[n].t.timestamp
  {
    var i := LogHoldsAccepted(env, xs, n, t);
  }

  /** In event-time order no point is late. */
  lemma NeverLate(env: Setup, xs: seq<Arrival>, n: nat)
    requires TimeOrdered(xs) && n < |xs|
    ensures !Late(StateStore.StateOf(CoreAfter(env, xs[..n]).states, xs[n].t.vehicleId), xs[n].t)
  {
    var log, v := CoreAfter(env, xs[..n]).log, xs[n].t.vehicleId;
    StatesAreLive(env, xs[..n]);
    Rebuild.LiveLastSeen(log, v);
    if v in Rebuild.Live(log) {
      var t :| t in log && t.vehicleId == v && Rebuild.Live(log)[v].lastSeen == t.timestamp;
      LoggedBefore(env, xs, n, t);
    }
  }

  /** What is taken from a time-ordered stream is time-ordered. */
  lemma {:induction false} TakenInTimeOrder(xs: seq<Arrival>, took: seq<bool>)
    requires TimeOrdered(xs) && |took| <= |xs|
    ensures Ordered(Taken(xs, took), Rebuild.Earlier())
    ensures |took| < |xs| ==> forall t :: t in Taken(xs, took) ==> t.timestamp <= xs[|took|].t.timestamp
  {
    if took != [] {
      var n := |took| - 1;
      TakenInTimeOrder(xs, took[..n]);
      if took[n] { OrderedNext(Taken(xs, took[..n]), xs[n].t); }
    }
  }

  lemma OrderedNext(log: seq<Telemetry>, t: Telemetry)
    requires Ordered(log, Rebuild.Earlier()) && forall x :: x in log ==> x.timestamp <= t.timestamp
    ensures Ordered(log + [t], Rebuild.Earlier())
  {
    forall i | 0 <= i < |log| ensures log[i].timestamp <= t.timestamp {
      assert log[i] in log;
    }
  }

  lemma LogInTimeOrder(env: Setup, xs: seq<Arrival>)
    requires TimeOrdered(xs)
    ensures Ordered(CoreAfter(env, xs).log, Rebuild.Earlier())
  {
    WholePrefix(xs);
    LogIsTaken(env, xs, |xs|);
    TakenInTimeOrder(xs, Took(env, xs));
  }

  /** In event-time order hot state is exactly what a rebuild from the written log gives, field by field. */
  lemma StateIsRebuilt(env: Setup, xs: seq<Arrival>, v: string)
    requires TimeOrdered(xs)
    ensures var c := CoreAfter(env, xs);
      && (v in c.states <==> Rebuild.OfVehicle(c.log, v) != [])
      && StateStore.StateOf(c.states, v) == Rebuild.Rebuilt(Rebuild.OfVehicle(c.log, v))
  {
    var c := CoreAfter(env, xs);
    var mine := Rebuild.OfVehicle(c.log, v);
    LogInTimeOrder(env, xs);
    StatesAreLive(env, xs);
    Rebuild.LiveProjects(c.log, v);
    OrderedFilter(c.log, Rebuild.Earlier(), Rebuild.OnVehicle(v));
    SortOfOrdered(mine, Rebuild.Earlier());
  }

  // ---------------------------------------------------------------- event times

  ghost predicate NonDecreasing(es: seq<Event>) {
    forall i, j :: 0 <= i < j < |es| ==> es[i].timestamp <= es[j].timestamp
  }

  lemma AppendInOrder(es: seq<Event>, more: seq<Event>, time: int)
    requires NonDecreasing(es) && (forall e :: e in es ==> e.timestamp <= time) && (forall e :: e in more ==> e.timestamp == time)
    ensures NonDecreasing(es + more) && forall e :: e in es + more ==> e.timestamp <= time
  {
    var all := es + more;
    forall i, j | 0 <= i < j < |all| ensures all[i].timestamp <= all[j].timestamp {
      assert i >= |es| ==> all[i] in more;
      assert i < |es| ==> all[i] in es;
      assert j >= |es| ==> all[j] in more;
    }
  }

  lemma {:induction false} ComputedInTimeOrder(env: Setup, xs: seq<Arrival>, n: nat, time: int)
    requires TimeOrdered(xs) && n <= |xs| && (n > 0 ==> xs[n - 1].t.timestamp <= time)
    ensures NonDecreasing(Computed(env, xs[..n]))
    ensures forall e :: e in Computed(env, xs[..n]) ==> e.timestamp <= time
  {
    if n > 0 {
      var at := xs[n - 1].t.timestamp;
      ComputedInTimeOrder(env, xs, n - 1, at);
      CoreNext(env, xs, n - 1);
      EventsAreAboutTheirPoint(env, CoreAfter(env, xs[..n - 1]), xs[n - 1]);
      AppendInOrder(Computed(env, xs[..n - 1]), Events(VerdictAt(env, xs, n - 1)), at);
    }
  }

  /** No point of the stream meets a state that is ahead of it. */
  ghost predicate NoneLate(env: Setup, xs: seq<Arrival>) {
    forall n :: 0 <= n < |xs| ==>
      !Late(StateStore.StateOf(CoreAfter(env, xs[..n]).states, xs[n].t.vehicleId), xs[n].t)
  }

  lemma StreamIsOrderly(env: Setup, xs: seq<Arrival>)
    requires TimeOrdered(xs)
    ensures NoneLate(env, xs) && NonDecreasing(Computed(env, xs))
  {
    forall n | 0 <= n < |xs|
      ensures !Late(StateStore.StateOf(CoreAfter(env, xs[..n]).states, xs[n].t.vehicleId), xs[n].t)
    {
      NeverLate(env, xs, n);
    }
    WholePrefix(xs);
    ComputedInTimeOrder(env, xs, |xs|, if xs == [] then 0 else xs[|xs| - 1].t.timestamp);
  }

  lemma SortedIsTimeOrdered(ordered: seq<Telemetry>, a: Ambient)
    requires Ordered(ordered, ReplayOrder())
    ensures TimeOrdered(Arrivals(ordered, a))
  {
    forall i, j | 0 <= i < j < |ordered| ensures ordered[i].timestamp <= ordered[j].timestamp {
      assert !ReplayOrder()(ordered[j], ordered[i]);
    }
  }

  /** Whatever the library sort makes of points that tie, a replay never takes the late branch; if it goes through, it
      has emitted its events in event-time order and leaves the hot state that RebuildFrom makes of the log it wrote. */
  lemma ReplayIsOrderly(env: Setup, ordered: seq<Telemetry>, a: Ambient, outcomes: EventBus.Outcomes, v: string)
    requires Ordered(ordered, ReplayOrder())
    ensures NoneLate(env, Arrivals(ordered, a))
    ensures var p := Replayed(env, ordered, a, outcomes);
      p.Going? ==>
        && NonDecreasing(p.events)
        && StateStore.StateOf(p.core.states, v) == Rebuild.Rebuilt(Rebuild.OfVehicle(p.core.log, v))
  {
    ReplayIsStream(env, ordered, a, outcomes);
    SortedIsTimeOrdered(ordered, a);
    StreamIsOrderly(env, Arrivals(ordered, a));
    StateIsRebuilt(env, Arrivals(ordered, a), v);
  }

  // ---------------------------------------------------------------- copies

  ghost predicate FixedClock(a: Ambient, clock: Clock) {
    forall n: nat :: a.clocks(n) == clock
  }

  ghost predicate FixedOrder(a: Ambient, order: seq<string>) {
    forall n: nat :: a.orders(n) == order
  }

  lemma AcceptedAt(env: Setup, p: Progress, x: Arrival, outcomes: EventBus.Outcomes, key: string)
    requires p.Going?
    ensures var p' := Advance(env, p, x, outcomes);
      p'.Going? ==>
        && Refusal(x.t, x.clock).None?
        && DedupKey(x.t) in p'.core.seen
        && (key in p.core.seen ==> key in p'.core.seen)
        && ((forall k :: k in p.core.seen ==> p.core.seen[k] == x.clock.dedup) ==>
              forall k :: k in p'.core.seen ==> p'.core.seen[k] == x.clock.dedup)
  {
    IngestOutline(env, p.core, x);
  }

  /** Under a fixed clock a replay that is still going has recorded every key so far at that clock. */
  lemma {:induction false} KeysRecorded(env: Setup, points: seq<Telemetry>, a: Ambient, clock: Clock, outcomes: EventBus.Outcomes,
                                        t: Telemetry)
    requires FixedClock(a, clock)
    ensures var p := Replayed(env, points, a, outcomes);
      p.Going? ==>
        && (forall key :: key in p.core.seen ==> p.core.seen[key] == clock.dedup)
        && (t in points ==> Refusal(t, clock).None? && DedupKey(t) in p.core.seen)
  {
    if points != [] && Replayed(env, points, a, outcomes).Going? {
      var n := |points| - 1;
      var p, x := Replayed(env, points[..n], a, outcomes), ArrivalAt(points[n], n, a);
      assert a.clocks(n) == clock;
      KeysRecorded(env, points[..n], a, clock, outcomes, t);
      AcceptedAt(env, p, x, outcomes, DedupKey(t));
      SplitLast(points);
    }
  }

  /** A point whose key is on record at the current clock is absorbed without a trace. */
  lemma CopyIsSilent(env: Setup, p: Progress, x: Arrival, outcomes: EventBus.Outcomes)
    requires env.ttl > 0 && p.Going? && Refusal(x.t, x.clock).None?
    requires DedupKey(x.t) in p.core.seen && p.core.seen[DedupKey(x.t)] == x.clock.dedup
    ensures Advance(env, p, x, outcomes) == p
  {
    IngestOutline(env, p.core, x);
    Unchanged(p.events);
  }

  /** Point `k` repeats the key of an earlier point that the pipeline treats alike. */
  ghost predicate HasEarlier(points: seq<Telemetry>, k: nat, clock: Clock)
    requires k < |points|
  {
    exists j :: 0 <= j < k && DedupKey(points[j]) == DedupKey(points[k]) && Refusal(points[j], clock) == Refusal(points[k], clock)
  }

  lemma DropStep(env: Setup, points: seq<Telemetry>, m: nat, a: Ambient, clock: Clock, outcomes: EventBus.Outcomes)
    requires FixedClock(a, clock) && env.ttl > 0
    requires m < |points| && HasEarlier(points, m, clock)
    ensures Replayed(env, points[..m + 1], a, outcomes) == Replayed(env, points[..m], a, outcomes)
  {
    var front, t := points[..m], points[m];
    ReplayedStep(env, points, m, a, outcomes);
    var p := Replayed(env, front, a, outcomes);
    assert a.clocks(m) == clock;
    if p.Going? {
      var j :| 0 <= j < m && DedupKey(points[j]) == DedupKey(t) && Refusal(points[j], clock) == Refusal(t, clock);
      assert front[j] in front;
      KeysRecorded(env, front, a, clock, outcomes, points[j]);
      CopyIsSilent(env, p, ArrivalAt(t, m, a), outcomes);
    }
  }

  lemma KeepStep(env: Setup, front: seq<Telemetry>, kept: seq<Telemetry>, t: Telemetry, a: Ambient, clock: Clock,
                 order: seq<string>, outcomes: EventBus.Outcomes)
    requires FixedClock(a, clock) && FixedOrder(a, order)
    requires Replayed(env, front, a, outcomes) == Replayed(env, kept, a, outcomes)
    ensures Replayed(env, front + [t], a, outcomes) == Replayed(env, kept + [t], a, outcomes)
  {
    assert ArrivalAt(t, |front|, a) == Arrival(t, clock, order, a.policy) == ArrivalAt(t, |kept|, a);
    ReplayedLast(env, front, t, a, outcomes);
    ReplayedLast(env, kept, t, a, outcomes);
  }

  lemma ReplayedLast(env: Setup, front: seq<Telemetry>, t: Telemetry, a: Ambient, outcomes: EventBus.Outcomes)
    ensures Replayed(env, front + [t], a, outcomes)
         == Advance(env, Replayed(env, front, a, outcomes), ArrivalAt(t, |front|, a), outcomes)
  {
    Prefixed(front, t);
  }

  /** Every point that is not kept repeats the key of an earlier one. */
  ghost predicate CopiesFollow(points: seq<Telemetry>, keep: Telemetry -> bool, clock: Clock) {
    forall k :: 0 <= k < |points| && !keep(points[k]) ==> HasEarlier(points, k, clock)
  }

  /** Dropping points that repeat the key of an earlier one, under a fixed clock and iteration order, changes nothing
      about a replay. */
  lemma {:induction false} ReplaySkipsCopies(env: Setup, points: seq<Telemetry>, n: nat, keep: Telemetry -> bool,
                                             a: Ambient, clock: Clock, order: seq<string>, outcomes: EventBus.Outcomes)
    requires FixedClock(a, clock) && FixedOrder(a, order)
    requires env.ttl > 0 && n <= |points| && CopiesFollow(points, keep, clock)
    ensures Replayed(env, points[..n], a, outcomes) == Replayed(env, Filter(points[..n], keep), a, outcomes)
  {
    if n > 0 {
      var m := n - 1;
      ReplaySkipsCopies(env, points, m, keep, a, clock, order, outcomes);
      FilterAt(points, m, keep);
      if keep(points[m]) {
        NextPrefix(points, m);
        KeepStep(env, points[..m], Filter(points[..m], keep), points[m], a, clock, order, outcomes);
      } else {
        DropStep(env, points, m, a, clock, outcomes);
      }
    }
  }

  lemma FilterAt(points: seq<Telemetry>, m: nat, keep: Telemetry -> bool)
    requires m < |points|
    ensures Filter(points[..m + 1], keep) == if keep(points[m]) then Filter(points[..m], keep) + [points[m]] else Filter(points[..m], keep)
  {
    NextPrefix(points, m);
    FilterNext(points[..m], points[m], keep);
  }

  // ---------------------------------------------------------------- faults

  lemma {:induction false} FilterCount(s: seq<Telemetry>, keep: Telemetry -> bool, t: Telemetry)
    ensures multiset(Filter(s, keep))[t] == if keep(t) then multiset(s)[t] else 0
  {
    if s != [] {
      FilterCount(s[..|s| - 1], keep, t);
      SplitLast(s);
    }
  }

  lemma {:induction false} PairsOnce(s: seq<Telemetry>, t: Telemetry)
    requires DistinctPairs(s)
    ensures multiset(s)[t] <= 1
  {
    if s != [] {
      var n := |s| - 1;
      PairsOnce(s[..n], t);
      SplitLast(s);
      assert s[n] !in s[..n];
    }
  }

  /** The originals of a sorted faulted recording are the sorted clean recording. */
  lemma OriginalsSorted(points: seq<Telemetry>, clean: seq<Telemetry>, dirty: seq<Telemetry>, copies: seq<Telemetry>)
    requires SortOf(clean, points) && Ordered(dirty, ReplayOrder())
    requires multiset(dirty) == multiset(points) + multiset(copies) && OnlyEqualTie(dirty, ReplayOrder())
    requires forall t :: multiset(dirty)[t] <= 1
    ensures Filter(dirty, (t: Telemetry) => t in points) == clean
  {
    var less := ReplayOrder();
    var keep := (t: Telemetry) => t in points;
    var kept := Filter(dirty, keep);
    OrderedFilter(dirty, less, keep);
    FilterMembers(dirty, keep);
    forall t ensures multiset(kept)[t] == multiset(points)[t] {
      FilterCount(dirty, keep, t);
      assert multiset(dirty)[t] == multiset(points)[t] + multiset(copies)[t];
      assert t in points <==> multiset(points)[t] > 0;
    }
    assert multiset(kept) == multiset(points);
    OrderedUnique(kept, clean, less);
  }

  /** In a sorted faulted recording every copy comes after its original. */
  lemma OriginalFirst(points: seq<Telemetry>, dirty: seq<Telemetry>, copies: seq<Telemetry>, k: nat) returns (j: nat)
    requires Ordered(dirty, ReplayOrder()) && multiset(dirty) == multiset(points) + multiset(copies)
    requires forall d :: d in copies ==> exists q :: q in points && d == Faults.CopyOf(q)
    requires k < |dirty| && dirty[k] !in points
    ensures j < k && dirty[k] == Faults.CopyOf(dirty[j])
  {
    var d := dirty[k];
    var q := OriginalOf(points, dirty, copies, d);
    j :| 0 <= j < |dirty| && dirty[j] == q;
    IdExtends(q.id, "-dup");
    assert ReplayOrder()(q, d);
    assert |d.id| != |q.id|;
  }

  lemma OriginalOf(points: seq<Telemetry>, all: seq<Telemetry>, copies: seq<Telemetry>, d: Telemetry) returns (q: Telemetry)
    requires multiset(all) == multiset(points) + multiset(copies)
    requires forall c :: c in copies ==> exists q :: q in points && c == Faults.CopyOf(q)
    requires d in all && d !in points
    ensures q in all && d == Faults.CopyOf(q)
  {
    assert d in multiset(all) && d !in multiset(points);
    assert d in copies;
    q :| q in points && d == Faults.CopyOf(q);
    assert q in multiset(points) && q in multiset(all);
  }

  lemma CopyLooksAlike(q: Telemetry, clock: Clock)
    ensures DedupKey(Faults.CopyOf(q)) == DedupKey(q) && Refusal(Faults.CopyOf(q), clock) == Refusal(q, clock)
  {
  }

  /** The faulted recording, sorted, is the sorted clean one with copies after their originals. */
  lemma FaultsOnlyAddCopies(points: seq<Telemetry>, duplicateRate: real, outOfOrderRate: real, draws: Faults.Draws,
                            clean: seq<Telemetry>, dirty: seq<Telemetry>, clock: Clock)
    requires SortOf(clean, points) && SortOf(dirty, Faults.Faulted(points, duplicateRate, outOfOrderRate, draws))
    requires DistinctPairs(Faults.Faulted(points, duplicateRate, outOfOrderRate, draws))
    ensures CopiesFollow(dirty, (t: Telemetry) => t in points, clock)
    ensures Filter(dirty, (t: Telemetry) => t in points) == clean
  {
    var faulted := Faults.Faulted(points, duplicateRate, outOfOrderRate, draws);
    var copies := Faults.Copies(points, duplicateRate, draws);
    Faults.FaultedIsPermutation(points, duplicateRate, outOfOrderRate, draws);
    var keep := (t: Telemetry) => t in points;
    forall k | 0 <= k < |dirty| && !keep(dirty[k]) ensures HasEarlier(dirty, k, clock) {
      var j := OriginalFirst(points, dirty, copies, k);
      CopyLooksAlike(dirty[j], clock);
    }
    NoTiesAfterSort(faulted, dirty);
    OriginalsSorted(points, clean, dirty, copies);
  }

  lemma NoTiesAfterSort(points: seq<Telemetry>, ordered: seq<Telemetry>)
    requires DistinctPairs(points) && multiset(ordered) == multiset(points)
    ensures OnlyEqualTie(ordered, ReplayOrder()) && forall t :: multiset(ordered)[t] <= 1
  {
    DistinctPairsDoNotTie(points);
    forall t ensures multiset(ordered)[t] <= 1 && (t in ordered <==> t in points) {
      PairsOnce(points, t);
      assert t in ordered <==> t in multiset(ordered);
      assert t in points <==> t in multiset(points);
    }
  }

  // ---------------------------------------------------------------- faults, at most one rule

  /** At most one rule: the iteration order of the rules map is no choice. */
  ghost predicate AtMostOneRule(policy: Policy) {
    policy.rules.Some? ==> |policy.rules.value| <= 1
  }

  /** Two replays that are surrounded alike go alike. */
  lemma {:induction false} AmbientsAlike(env: Setup, points: seq<Telemetry>, a: Ambient, b: Ambient, outcomes: EventBus.Outcomes)
    requires a.policy == b.policy && forall n: nat :: a.clocks(n) == b.clocks(n) && SameOrder(a.policy, a.orders(n), b.orders(n))
    ensures Replayed(env, points, a, outcomes) == Replayed(env, points, b, outcomes)
  {
    if points != [] {
      var n := |points| - 1;
      AmbientsAlike(env, points[..n], a, b, outcomes);
      assert a.clocks(n) == b.clocks(n) && SameOrder(a.policy, a.orders(n), b.orders(n));
      OrderWithoutRules(env, Replayed(env, points[..n], a, outcomes), ArrivalAt(points[n], n, a), ArrivalAt(points[n], n, b), outcomes);
    }
  }

  /** Without rules the iteration order means nothing. */
  predicate SameOrder(policy: Policy, x: seq<string>, y: seq<string>) {
    policy.rules.None? || x == y
  }

  lemma OrderWithoutRules(env: Setup, p: Progress, x: Arrival, y: Arrival, outcomes: EventBus.Outcomes)
    requires y == x.(order := y.order) && SameOrder(x.policy, x.order, y.order)
    ensures Advance(env, p, x, outcomes) == Advance(env, p, y, outcomes)
  {
  }

  lemma OneRuleOneOrder(a: Ambient, b: Ambient)
    requires AmbientFits(a) && AmbientFits(b) && a.policy == b.policy && AtMostOneRule(a.policy)
    ensures forall n: nat, m: nat :: SameOrder(a.policy, a.orders(n), b.orders(m))
  {
    forall n: nat, m: nat ensures SameOrder(a.policy, a.orders(n), b.orders(m)) {
      assert OrderFits(a.policy, a.orders(n)) && OrderFits(b.policy, b.orders(m));
      if a.policy.rules.Some? { Rules.SingleOrder(a.orders(n), b.orders(m), a.policy.rules.value); }
    }
  }

  /** Replaying a recording with injected duplicates and swaps, for every random choice, gives exactly what replaying
      the clean recording gives: the same events, or the same error at the same point. */
  lemma ReplayAbsorbsFaults(env: Setup, points: seq<Telemetry>, duplicateRate: real, outOfOrderRate: real, draws: Faults.Draws,
                            clean: seq<Telemetry>, dirty: seq<Telemetry>, a: Ambient, b: Ambient, clock: Clock,
                            outcomes: EventBus.Outcomes)
    requires SortOf(clean, points) && SortOf(dirty, Faults.Faulted(points, duplicateRate, outOfOrderRate, draws))
    requires DistinctPairs(Faults.Faulted(points, duplicateRate, outOfOrderRate, draws))
    requires FixedClock(a, clock) && FixedClock(b, clock) && env.ttl > 0
    requires AmbientFits(a) && AmbientFits(b) && a.policy == b.policy && AtMostOneRule(a.policy)
    ensures Replayed(env, dirty, a, outcomes) == Replayed(env, clean, b, outcomes)
  {
    var order := b.orders(0);
    var steady := b.(orders := _ => order);
    assert AmbientFits(steady) by { assert OrderFits(b.policy, order); }
    OneRuleOneOrder(a, steady);
    OneRuleOneOrder(steady, b);
    assert forall n: nat :: a.clocks(n) == steady.clocks(n);
    AmbientsAlike(env, dirty, a, steady, outcomes);
    AmbientsAlike(env, clean, steady, b, outcomes);
    SteadyReplayAbsorbsFaults(env, points, duplicateRate, outOfOrderRate, draws, clean, dirty, steady, clock, order, outcomes);
  }

  lemma SteadyReplayAbsorbsFaults(env: Setup, points: seq<Telemetry>, duplicateRate: real, outOfOrderRate: real,
                                  draws: Faults.Draws, clean: seq<Telemetry>, dirty: seq<Telemetry>, a: Ambient, clock: Clock,
                                  order: seq<string>, outcomes: EventBus.Outcomes)
    requires SortOf(clean, points) && SortOf(dirty, Faults.Faulted(points, duplicateRate, outOfOrderRate, draws))
    requires DistinctPairs(Faults.Faulted(points, duplicateRate, outOfOrderRate, draws))
    requires FixedClock(a, clock) && FixedOrder(a, order) && env.ttl > 0
    ensures Replayed(env, dirty, a, outcomes) == Replayed(env, clean, a, outcomes)
  {
    FaultsOnlyAddCopies(points, duplicateRate, outOfOrderRate, draws, clean, dirty, clock);
    ReplaySkipsCopies(env, dirty, |dirty|, (t: Telemetry) => t in points, a, clock, order, outcomes);
    WholePrefix(dirty);
  }

  /** A replay does not depend on the order in which its points are handed over. */
  lemma ReplayIgnoresArrivalOrder(env: Setup, points: seq<Telemetry>, shuffled: seq<Telemetry>, x: seq<Telemetry>,
                                  y: seq<Telemetry>, a: Ambient, outcomes: EventBus.Outcomes)
    requires DistinctPairs(points) && multiset(shuffled) == multiset(points) && SortOf(x, points) && SortOf(y, shuffled)
    ensures Replayed(env, x, a, outcomes) == Replayed(env, y, a, outcomes)
  {
    ReplayListUnique(points, x);
    ReplayListUnique(points, y);
  }

  // ---------------------------------------------------------------- any number of rules

  ghost predicate WellKeyedPolicy(policy: Policy) {
    policy.rules.Some? ==> Rules.WellKeyed(policy.rules.value)
  }

  /** Two replays that differ at most in the order of rule events. */
  ghost predicate SameUpToRuleOrder(p: Progress, q: Progress) {
    || (p.Halted? && q.Halted? && p.id == q.id)
    || (p.Going? && q.Going? && p.core == q.core && multiset(p.events) == multiset(q.events))
  }

  lemma IngestUpToRuleOrder(env: Setup, c: Core, x: Arrival, y: Arrival)
    requires y == x.(order := y.order) && OrderFits(x.policy, x.order) && OrderFits(y.policy, y.order) && WellKeyedPolicy(x.policy)
    ensures var (c1, v1), (c2, v2) := Ingest(env, c, x), Ingest(env, c, y);
      && c1 == c2
      && (v1.Rejected? <==> v2.Rejected?)
      && multiset(Events(v1)) == multiset(Events(v2))
  {
    IngestOutline(env, c, x);
    IngestOutline(env, c, y);
    if x.policy.rules.Some? && Ingest(env, c, x).1.Accepted? {
      var next := NextState(c.states, x.t);
      var derived := Detectors.DetectSpec(c.memory, env.detectors, x.t, next.motion).1 + Fenced(x.policy.fences, c.members, x.t).1;
      Rules.OrderIsIrrelevant(c.valves, x.policy.rules.value, x.order, y.order, Rules.Context(x.t, next, derived, x.clock.rules));
    }
  }

  /** With any number of rules, and whatever orders the rules map is iterated in, replay through the in-memory bus
      ends the same way: same memory and the same multiset of events, or a failure at the same point. */
  lemma {:induction false} ReplayDeterministicUpToRuleOrder(env: Setup, points: seq<Telemetry>, a: Ambient, b: Ambient)
    requires AmbientFits(a) && AmbientFits(b) && a.policy == b.policy && WellKeyedPolicy(a.policy)
    requires forall n: nat :: a.clocks(n) == b.clocks(n)
    ensures SameUpToRuleOrder(Replayed(env, points, a, EventBus.MemoryOutcomes()), Replayed(env, points, b, EventBus.MemoryOutcomes()))
  {
    if points != [] {
      var n := |points| - 1;
      ReplayDeterministicUpToRuleOrder(env, points[..n], a, b);
      var out := EventBus.MemoryOutcomes();
      var p, q := Replayed(env, points[..n], a, out), Replayed(env, points[..n], b, out);
      assert OrderFits(a.policy, a.orders(n)) && OrderFits(b.policy, b.orders(n)) && a.clocks(n) == b.clocks(n);
      if p.Going? {
        StepUpToRuleOrder(env, p, q, ArrivalAt(points[n], n, a), ArrivalAt(points[n], n, b));
      }
    }
  }

  lemma StepUpToRuleOrder(env: Setup, p: Progress, q: Progress, x: Arrival, y: Arrival)
    requires y == x.(order := y.order) && OrderFits(x.policy, x.order) && OrderFits(y.policy, y.order) && WellKeyedPolicy(x.policy)
    requires p.Going? && SameUpToRuleOrder(p, q)
    ensures SameUpToRuleOrder(Advance(env, p, x, EventBus.MemoryOutcomes()), Advance(env, q, y, EventBus.MemoryOutcomes()))
  {
    IngestUpToRuleOrder(env, p.core, x, y);
    var es, fs := Events(Ingest(env, p.core, x).1), Events(Ingest(env, p.core, y).1);
    DeliveredWhenValid(p.attempts, es);
    DeliveredWhenValid(q.attempts, fs);
    forall e ensures e in es <==> e in fs {
      assert e in es <==> e in multiset(es);
      assert e in fs <==> e in multiset(fs);
    }
  }

  /** With any number of rules a replay through the in-memory bus absorbs injected faults up to the order of rule
      events. */
  lemma ReplayAbsorbsFaultsUpToRuleOrder(
    env: Setup, points: seq<Telemetry>, duplicateRate: real, outOfOrderRate: real, draws: Faults.Draws,
    clean: seq<Telemetry>, dirty: seq<Telemetry>, a: Ambient, b: Ambient, clock: Clock)
    requires SortOf(clean, points) && SortOf(dirty, Faults.Faulted(points, duplicateRate, outOfOrderRate, draws))
    requires DistinctPairs(Faults.Faulted(points, duplicateRate, outOfOrderRate, draws))
    requires FixedClock(a, clock) && FixedClock(b, clock) && env.ttl > 0
    requires AmbientFits(a) && AmbientFits(b) && a.policy == b.policy && WellKeyedPolicy(a.policy)
    ensures SameUpToRuleOrder(Replayed(env, dirty, a, EventBus.MemoryOutcomes()), Replayed(env, clean, b, EventBus.MemoryOutcomes()))
  {
    var order := b.orders(0);
    var steady := b.(orders := _ => order);
    assert AmbientFits(steady) by { assert OrderFits(b.policy, order); }
    assert forall n: nat :: a.clocks(n) == steady.clocks(n);
    ReplayDeterministicUpToRuleOrder(env, dirty, a, steady);
    SteadyReplayAbsorbsFaults(env, points, duplicateRate, outOfOrderRate, draws, clean, dirty, steady, clock, order,
                              EventBus.MemoryOutcomes());
    ReplayDeterministicUpToRuleOrder(env, clean, steady, b);
  }
}
