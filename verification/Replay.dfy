/** Replay through the production path: sort by event time and id, then process until the first error. */
module Replay {
  import opened Collections
  import opened Schemas
  import opened Pipeline
  import opened PipelineRuns
  import opened Sorting
  import EventBus

  // ---------------------------------------------------------------- the order

  /** Byte-wise order of strings. */
  predicate IdLess(a: string, b: string) {
    && b != []
    && (a == [] || a[0] < b[0] || (a[0] == b[0] && IdLess(a[1..], b[1..])))
  }

  lemma {:induction false} IdTotal(a: string, b: string)
    ensures IdLess(a, b) ==> !IdLess(b, a)
    ensures IdLess(a, b) || IdLess(b, a) || a == b
    ensures !IdLess(a, a)
  {
    if a != [] && b != [] && a[0] == b[0] {
      IdTotal(a[1..], b[1..]);
      assert a == [a[0]] + a[1..] && b == [b[0]] + b[1..];
    }
    if a != [] {
      IdTotal(a[1..], a[1..]);
    }
  }

  lemma {:induction false} IdTransitive(a: string, b: string, c: string)
    requires IdLess(a, b) && IdLess(b, c)
    ensures IdLess(a, c)
  {
    if a != [] && a[0] == b[0] && b[0] == c[0] {
      IdTransitive(a[1..], b[1..], c[1..]);
    }
  }

  /** A longer id sorts after the id it extends. */
  lemma {:induction false} IdExtends(a: string, more: string)
    requires more != []
    ensures IdLess(a, a + more)
  {
    if a != [] {
      IdExtends(a[1..], more);
      assert (a + more)[1..] == a[1..] + more;
    }
  }

  /** The texts agree up to `k`, where `a` ends or is smaller. */
  predicate SmallerAt(a: string, b: string, k: nat) {
    k <= |a| && k < |b| && a[..k] == b[..k] && (k == |a| || a[k] < b[k])
  }

  /** The order of texts is decided at the first place where they differ. */
  lemma {:induction false} IdLessMeaning(a: string, b: string)
    ensures IdLess(a, b) <==> exists k: nat :: SmallerAt(a, b, k)
  {
    if a == [] {
      assert b != [] ==> SmallerAt(a, b, 0);
    } else if b != [] {
      IdLessMeaning(a[1..], b[1..]);
      if a[0] == b[0] && IdLess(a[1..], b[1..]) {
        var k: nat :| SmallerAt(a[1..], b[1..], k);
        assert a[..k + 1] == [a[0]] + a[1..][..k] && b[..k + 1] == [b[0]] + b[1..][..k];
        assert SmallerAt(a, b, k + 1);
      }
      if a[0] < b[0] { assert SmallerAt(a, b, 0); }
      if k: nat :| SmallerAt(a, b, k) {
        if k > 0 {
          assert a[..k][0] == b[..k][0];
          assert a[1..][..k - 1] == a[..k][1..] && b[1..][..k - 1] == b[..k][1..];
          assert SmallerAt(a[1..], b[1..], k - 1);
        }
      }
    }
  }

  predicate Before(a: Telemetry, b: Telemetry) {
    if a.timestamp == b.timestamp then IdLess(a.id, b.id) else a.timestamp < b.timestamp
  }

  function ReplayOrder(): (Telemetry, Telemetry) -> bool {
    (a: Telemetry, b: Telemetry) => Before(a, b)
  }

  lemma ReplayOrderIsWeak()
    ensures WeakOrder(ReplayOrder())
  {
    forall a, b | Before(a, b) ensures !Before(b, a) {
      IdTotal(a.id, b.id);
    }
    forall a, b, c | !Before(a, b) && !Before(b, c) ensures !Before(a, c) {
      IdTotal(a.id, b.id);
      IdTotal(b.id, c.id);
      IdTotal(a.id, c.id);
      if Before(a, c) && a.timestamp == b.timestamp && b.timestamp == c.timestamp {
        if a.id != b.id && b.id != c.id { IdTransitive(c.id, b.id, a.id); }
      }
    }
  }

  /** No two positions carry the same event time and id. */
  ghost predicate DistinctPairs(s: seq<Telemetry>) {
    forall i, j :: 0 <= i < j < |s| ==> s[i].timestamp != s[j].timestamp || s[i].id != s[j].id
  }

  lemma DistinctPairsDoNotTie(s: seq<Telemetry>)
    requires DistinctPairs(s)
    ensures OnlyEqualTie(s, ReplayOrder())
  {
    forall x, y | x in s && y in s && x != y ensures ReplayOrder()(x, y) || ReplayOrder()(y, x) {
      var i :| 0 <= i < |s| && s[i] == x;
      var j :| 0 <= j < |s| && s[j] == y;
      assert i != j;
      IdTotal(x.id, y.id);
    }
  }

  /** What the library sort promises: an ordered permutation, with no word on points that tie. */
  ghost predicate SortOf(ordered: seq<Telemetry>, points: seq<Telemetry>) {
    multiset(ordered) == multiset(points) && Ordered(ordered, ReplayOrder())
  }

  /** Every recording can be sorted; when no pair of event time and id repeats there is only one way. */
  lemma ReplayListUnique(points: seq<Telemetry>, ordered: seq<Telemetry>)
    requires SortOf(ordered, points)
    ensures SortOf(Sort(points, ReplayOrder()), points)
    ensures DistinctPairs(points) ==> ordered == Sort(points, ReplayOrder())
  {
    ReplayOrderIsWeak();
    SortPermutes(points, ReplayOrder());
    if DistinctPairs(points) {
      DistinctPairsDoNotTie(points);
      OrderedUnique(Sort(points, ReplayOrder()), ordered, ReplayOrder());
    }
  }

  // ---------------------------------------------------------------- the run

  /** What surrounds a replay: clock readings and map iteration orders, call by call, and the pinned policy. */
  datatype Ambient = Ambient(clocks: nat -> Clock, orders: nat -> seq<string>, policy: Policy)

  ghost predicate AmbientFits(a: Ambient) {
    forall n: nat :: OrderFits(a.policy, a.orders(n))
  }

  function ArrivalAt(t: Telemetry, n: nat, a: Ambient): Arrival {
    Arrival(t, a.clocks(n), a.orders(n), a.policy)
  }

  function Arrivals(points: seq<Telemetry>, a: Ambient): (xs: seq<Arrival>)
    ensures |xs| == |points|
  {
    seq(|points|, i requires 0 <= i < |points| => ArrivalAt(points[i], i, a))
  }

  datatype Progress = Going(core: Core, events: seq<Event>, attempts: nat) | Halted(id: string, error: ProcessError)

  /** What one answer makes of a replay that is going. */
  function Settle(p: Progress, id: string, r: Reply): (p': Progress)
    requires p.Going?
  {
    if r.error.Some? then Halted(id, r.error.value) else Going(r.core, p.events + r.events, p.attempts + r.attempts)
  }

  ghost function Advance(env: Setup, p: Progress, x: Arrival, outcomes: EventBus.Outcomes): (p': Progress) {
    if p.Halted? then p else Settle(p, x.t.id, Answer(env, p.core, x, outcomes, p.attempts))
  }

  /** A replay of the listed points through a fresh pipeline. */
  ghost function Replayed(env: Setup, points: seq<Telemetry>, a: Ambient, outcomes: EventBus.Outcomes): (p: Progress) {
    if points == [] then Going(FRESH, [], 0)
    else
      var n := |points| - 1;
      Advance(env, Replayed(env, points[..n], a, outcomes), ArrivalAt(points[n], n, a), outcomes)
  }

  datatype Result = Completed(events: seq<Event>, points: nat) | Aborted(id: string, error: ProcessError)

  ghost function ResultOf(p: Progress, points: nat): Result {
    match p
    case Going(_, events, _) => Completed(events, points)
    case Halted(id, error) => Aborted(id, error)
  }

  /** `ordered` is what the library sort makes of the recording. */
  method Run(ghost points: seq<Telemetry>, ordered: seq<Telemetry>, p: Processor, a: Ambient) returns (result: Result)
    requires SortOf(ordered, points)
    requires p.State() == FRESH && p.bus.attempts == 0 && p.InForce() == a.policy && AmbientFits(a)
    modifies p.dedup, p.states, p.log, p.bus, p.detectors, p.geo, p.rules
    ensures result == ResultOf(Replayed(p.Env(), ordered, a, p.bus.outcomes), |points|)
  {
    assert |ordered| == |multiset(ordered)| == |multiset(points)| == |points|;
    var out := [];
    ghost var g := Going(FRESH, [], 0);
    for i := 0 to |ordered|
      invariant p.InForce() == a.policy
      invariant g.Going? && g.core == p.State() && g.events == out && g.attempts == p.bus.attempts
      invariant Replayed(p.Env(), ordered[..i], a, p.bus.outcomes) == g
    {
      ReplayedStep(p.Env(), ordered, i, a, p.bus.outcomes);
      var evs, error;
      evs, error, g := RunStep(p, ordered[i], a.clocks(i), a.orders(i), g);
      if error.Some? {
        ReplayStopsForGood(p.Env(), ordered, i + 1, a, p.bus.outcomes);
        return Aborted(ordered[i].id, error.value);
      }
      out := out + evs;
    }
    WholePrefix(ordered);
    result := Completed(out, |ordered|);
  }

  /** One turn of the replay loop. */
  method RunStep(p: Processor, t: Telemetry, clock: Clock, order: seq<string>, ghost g: Progress)
    returns (evs: seq<Event>, error: Option<ProcessError>, ghost g': Progress)
    requires OrderFits(p.InForce(), order) && g.Going? && g.core == p.State() && g.attempts == p.bus.attempts
    modifies p.dedup, p.states, p.log, p.bus, p.detectors, p.geo, p.rules
    ensures p.InForce() == old(p.InForce())
    ensures g' == Advance(p.Env(), g, Arrival(t, clock, order, p.InForce()), p.bus.outcomes)
    ensures if error.Some? then g' == Halted(t.id, error.value)
      else g'.Going? && g'.core == p.State() && g'.events == g.events + evs && g'.attempts == p.bus.attempts
  {
    ghost var r := Answer(p.Env(), g.core, Arrival(t, clock, order, p.InForce()), p.bus.outcomes, g.attempts);
    var dup;
    evs, dup, error := p.Process(t, clock, order);
    g' := Settle(g, t.id, r);
  }

  lemma ReplayedStep(env: Setup, points: seq<Telemetry>, i: nat, a: Ambient, outcomes: EventBus.Outcomes)
    requires i < |points|
    ensures Replayed(env, points[..i + 1], a, outcomes)
         == Advance(env, Replayed(env, points[..i], a, outcomes), ArrivalAt(points[i], i, a), outcomes)
  {
    NextPrefix(points, i);
  }

  lemma {:induction false} ReplayStopsForGood(env: Setup, points: seq<Telemetry>, n: nat, a: Ambient, outcomes: EventBus.Outcomes)
    requires n <= |points|
    ensures Replayed(env, points[..n], a, outcomes).Halted? ==>
      Replayed(env, points, a, outcomes) == Replayed(env, points[..n], a, outcomes)
    decreases |points|
  {
    if n == |points| {
      assert points[..n] == points;
    } else {
      var m := |points| - 1;
      assert points[..m][..n] == points[..n];
      ReplayStopsForGood(env, points[..m], n, a, outcomes);
    }
  }

  /** A replay that goes through is the stream of its points. */
  lemma {:induction false} ReplayIsStream(env: Setup, points: seq<Telemetry>, a: Ambient, outcomes: EventBus.Outcomes)
    ensures var p, xs := Replayed(env, points, a, outcomes), Arrivals(points, a);
      p.Going? ==> p.core == CoreAfter(env, xs) && p.events == Computed(env, xs)
  {
    if points != [] {
      var front, t, n := points[..|points| - 1], points[|points| - 1], |points| - 1;
      SplitLast(points);
      ReplayIsStream(env, front, a, outcomes);
      assert Arrivals(points, a) == Arrivals(front, a) + [ArrivalAt(t, n, a)];
      Append(env, Arrivals(front, a), ArrivalAt(t, n, a));
      GoingOn(env, Replayed(env, front, a, outcomes), ArrivalAt(t, n, a), outcomes);
    }
  }

  lemma GoingOn(env: Setup, p: Progress, x: Arrival, outcomes: EventBus.Outcomes)
    ensures var p' := Advance(env, p, x, outcomes);
      p'.Going? ==> p.Going? && p'.core == Ingest(env, p.core, x).0 && p'.events == p.events + Events(Ingest(env, p.core, x).1)
  {
  }

  /** A replay that halts names the point at which it did, and says what the pipeline answered there. */
  lemma {:induction false} ReplayHaltsAt(env: Setup, points: seq<Telemetry>, a: Ambient, outcomes: EventBus.Outcomes)
    ensures var p := Replayed(env, points, a, outcomes);
      p.Halted? ==> exists i :: HaltsAt(env, points, a, outcomes, i, p.id, p.error)
  {
    if points != [] && Replayed(env, points, a, outcomes).Halted? {
      var n, p := |points| - 1, Replayed(env, points, a, outcomes);
      var front := points[..n];
      if Replayed(env, front, a, outcomes).Halted? {
        ReplayHaltsAt(env, front, a, outcomes);
        var i :| HaltsAt(env, front, a, outcomes, i, p.id, p.error);
        HaltsEarlier(env, points, a, outcomes, i, p.id, p.error);
      } else {
        assert HaltsAt(env, points, a, outcomes, n, p.id, p.error);
      }
    }
  }

  lemma HaltsEarlier(env: Setup, points: seq<Telemetry>, a: Ambient, outcomes: EventBus.Outcomes, i: int, id: string, error: ProcessError)
    requires points != [] && HaltsAt(env, points[..|points| - 1], a, outcomes, i, id, error)
    ensures HaltsAt(env, points, a, outcomes, i, id, error)
  {
    assert points[..|points| - 1][..i] == points[..i];
  }

  /** Up to point `i` the replay was going; there the pipeline answered with this error. */
  ghost predicate HaltsAt(env: Setup, points: seq<Telemetry>, a: Ambient, outcomes: EventBus.Outcomes, i: int, id: string,
                          error: ProcessError)
  {
    0 <= i < |points| && points[i].id == id &&
    var p := Replayed(env, points[..i], a, outcomes);
    p.Going? && Answer(env, p.core, ArrivalAt(points[i], i, a), outcomes, p.attempts).error == Some(error)
  }

  /** What a replay returns: all events of its stream and the number of its points, or the first error. */
  lemma ResultMeaning(env: Setup, points: seq<Telemetry>, a: Ambient, outcomes: EventBus.Outcomes)
    ensures var result := ResultOf(Replayed(env, points, a, outcomes), |points|);
      match result
      case Completed(events, n) => events == Computed(env, Arrivals(points, a)) && n == |points|
      case Aborted(id, error) => exists i :: HaltsAt(env, points, a, outcomes, i, id, error)
  {
    ReplayIsStream(env, points, a, outcomes);
    ReplayHaltsAt(env, points, a, outcomes);
  }
}
