/** Whole streams through the pipeline: repeats, vehicles, bus failures and rebuilds. */
module PipelineRuns {
  import opened Collections
  import opened Schemas
  import opened VehicleStates
  import opened Pipeline
  import opened StateStore
  import opened Sorting
  import Rebuild
  import GeoTracker
  import Detectors

  /** What a fresh pipeline remembers after a stream. */
  ghost function CoreAfter(env: Setup, xs: seq<Arrival>): (c: Core) {
    if xs == [] then FRESH else Ingest(env, CoreAfter(env, xs[..|xs| - 1]), xs[|xs| - 1]).0
  }

  ghost function VerdictAt(env: Setup, xs: seq<Arrival>, i: nat): (v: Verdict)
    requires i < |xs|
  {
    Ingest(env, CoreAfter(env, xs[..i]), xs[i]).1
  }

  /** All events computed for a stream. */
  ghost function Computed(env: Setup, xs: seq<Arrival>): (es: seq<Event>) {
    if xs == [] then []
    else
      var n := |xs| - 1;
      Computed(env, xs[..n]) + Events(VerdictAt(env, xs, n))
  }

  /** Which arrivals were accepted. */
  ghost function Took(env: Setup, xs: seq<Arrival>): (took: seq<bool>)
    ensures |took| == |xs|
  {
    seq(|xs|, i requires 0 <= i < |xs| => VerdictAt(env, xs, i).Accepted?)
  }

  /** The outline of one call, without its computations. */
  lemma IngestOutline(env: Setup, c: Core, x: Arrival)
    ensures var (c', v) := Ingest(env, c, x); var key := DedupKey(x.t);
      && (v.Rejected? <==> Refusal(x.t, x.clock).Some?)
      && (v.Rejected? ==> Refusal(x.t, x.clock) == Some(v.error))
      && (v.Duplicate? <==> Refusal(x.t, x.clock).None? && key in c.seen && x.clock.dedup - c.seen[key] < env.ttl)
      && (!v.Accepted? ==> c' == c && Events(v) == [])
      && (v.Accepted? ==>
            && c'.seen == c.seen[key := x.clock.dedup] && c'.log == c.log + [x.t]
            && c'.states == c.states[x.t.vehicleId := NextState(c.states, x.t)])
  {
  }

  /** One more arrival. */
  lemma Append(env: Setup, ys: seq<Arrival>, x: Arrival)
    ensures CoreAfter(env, ys + [x]) == Ingest(env, CoreAfter(env, ys), x).0
    ensures Computed(env, ys + [x]) == Computed(env, ys) + Events(Ingest(env, CoreAfter(env, ys), x).1)
    ensures Took(env, ys + [x]) == Took(env, ys) + [Ingest(env, CoreAfter(env, ys), x).1.Accepted?]
  {
    Prefixed(ys, x);
    TookNext(env, ys, x);
  }

  lemma SameVerdict(env: Setup, xs: seq<Arrival>, ys: seq<Arrival>, i: nat)
    requires i < |ys| <= |xs| && xs[..|ys|] == ys
    ensures VerdictAt(env, xs, i) == VerdictAt(env, ys, i)
  {
    assert xs[i] == ys[i];
    assert xs[..i] == xs[..|ys|][..i];
  }

  lemma TookNext(env: Setup, ys: seq<Arrival>, x: Arrival)
    ensures Took(env, ys + [x]) == Took(env, ys) + [VerdictAt(env, ys + [x], |ys|).Accepted?]
  {
    Prefixed(ys, x);
    forall i | 0 <= i < |ys| ensures Took(env, ys + [x])[i] == Took(env, ys)[i] {
      SameVerdict(env, ys + [x], ys, i);
    }
  }

  lemma CoreNext(env: Setup, xs: seq<Arrival>, n: nat)
    requires n < |xs|
    ensures CoreAfter(env, xs[..n + 1]) == Ingest(env, CoreAfter(env, xs[..n]), xs[n]).0
    ensures Computed(env, xs[..n + 1]) == Computed(env, xs[..n]) + Events(VerdictAt(env, xs, n))
    ensures Took(env, xs[..n + 1]) == Took(env, xs[..n]) + [VerdictAt(env, xs, n).Accepted?]
  {
    NextPrefix(xs, n);
    Append(env, xs[..n], xs[n]);
  }

  lemma AcceptedIsVerdict(env: Setup, xs: seq<Arrival>, n: nat, i: nat)
    requires i < n <= |xs|
    ensures Took(env, xs[..n])[i] == VerdictAt(env, xs, i).Accepted?
  {
    SameVerdict(env, xs, xs[..n], i);
  }

  // ---------------------------------------------------------------- repeats

  /** The dedup clock never goes backward. */
  ghost predicate ClockRuns(xs: seq<Arrival>) {
    forall i, j :: 0 <= i < j < |xs| ==> xs[i].clock.dedup <= xs[j].clock.dedup
  }

  predicate TookKey(took: seq<bool>, xs: seq<Arrival>, i: int, key: string) {
    0 <= i < |took| && i < |xs| && took[i] && DedupKey(xs[i].t) == key
  }

  /** `seen` holds, for this key, when it was last accepted. */
  ghost predicate Remembers(seen: map<string, int>, took: seq<bool>, xs: seq<Arrival>, key: string) {
    && (key in seen ==> exists i :: TookKey(took, xs, i, key) && xs[i].clock.dedup == seen[key])
    && (forall i :: TookKey(took, xs, i, key) ==> key in seen && xs[i].clock.dedup <= seen[key])
  }

  lemma TookKeyNext(took: seq<bool>, xs: seq<Arrival>, last: bool, i: int, key: string)
    requires |took| < |xs|
    ensures TookKey(took + [last], xs, i, key) <==>
      TookKey(took, xs, i, key) || (i == |took| && last && DedupKey(xs[i].t) == key)
  {
  }

  lemma RemembersNext(seen: map<string, int>, took: seq<bool>, xs: seq<Arrival>, key: string, last: bool)
    requires Remembers(seen, took, xs, key) && ClockRuns(xs) && |took| < |xs|
    ensures Remembers(if last then seen[DedupKey(xs[|took|].t) := xs[|took|].clock.dedup] else seen, took + [last], xs, key)
  {
    var n, x := |took|, xs[|took|];
    var mine := last && DedupKey(x.t) == key;
    forall i | TookKey(took + [last], xs, i, key)
      ensures mine || key in seen
      ensures xs[i].clock.dedup <= if mine then x.clock.dedup else seen[key]
    {
      TookKeyNext(took, xs, last, i, key);
    }
    if mine {
      TookKeyNext(took, xs, last, n, key);
    } else if key in seen {
      var i :| TookKey(took, xs, i, key) && xs[i].clock.dedup == seen[key];
      TookKeyNext(took, xs, last, i, key);
    }
  }

  /** The store remembers, for each key, when it was last accepted. */
  lemma {:induction false} SeenMeaning(env: Setup, xs: seq<Arrival>, n: nat, key: string)
    requires ClockRuns(xs) && n <= |xs|
    ensures Remembers(CoreAfter(env, xs[..n]).seen, Took(env, xs[..n]), xs, key)
  {
    if n > 0 {
      SeenMeaning(env, xs, n - 1, key);
      StreamNext(env, xs, n - 1);
      RemembersNext(CoreAfter(env, xs[..n - 1]).seen, Took(env, xs[..n - 1]), xs, key, VerdictAt(env, xs, n - 1).Accepted?);
    }
  }

  lemma StreamNext(env: Setup, xs: seq<Arrival>, n: nat)
    requires n < |xs|
    ensures var seen := CoreAfter(env, xs[..n]).seen;
      CoreAfter(env, xs[..n + 1]).seen
      == if VerdictAt(env, xs, n).Accepted? then seen[DedupKey(xs[n].t) := xs[n].clock.dedup] else seen
    ensures var log := CoreAfter(env, xs[..n]).log;
      CoreAfter(env, xs[..n + 1]).log == if VerdictAt(env, xs, n).Accepted? then log + [xs[n].t] else log
    ensures Took(env, xs[..n + 1]) == Took(env, xs[..n]) + [VerdictAt(env, xs, n).Accepted?]
  {
    CoreNext(env, xs, n);
    IngestOutline(env, CoreAfter(env, xs[..n]), xs[n]);
  }

  /** Point `r` repeats an accepted point whose record is still alive. */
  ghost predicate Repeats(env: Setup, xs: seq<Arrival>, r: nat)
    requires r < |xs|
  {
    exists i :: TookKey(Took(env, xs[..r]), xs, i, DedupKey(xs[r].t)) && xs[r].clock.dedup - xs[i].clock.dedup < env.ttl
  }

  /** A well-formed point is absorbed as a duplicate exactly when it repeats an accepted point inside the time to live. */
  lemma DuplicateIffRepeats(env: Setup, xs: seq<Arrival>, r: nat)
    requires ClockRuns(xs) && r < |xs|
    ensures VerdictAt(env, xs, r).Duplicate? <==> Refusal(xs[r].t, xs[r].clock).None? && Repeats(env, xs, r)
  {
    SeenMeaning(env, xs, r, DedupKey(xs[r].t));
    IngestOutline(env, CoreAfter(env, xs[..r]), xs[r]);
  }

  /** A stream with some positions left out. */
  ghost function Without(xs: seq<Arrival>, drop: set<nat>): (ys: seq<Arrival>)
    ensures forall y :: y in ys ==> y in xs
  {
    if xs == [] then []
    else
      var n := |xs| - 1;
      if n in drop then Without(xs[..n], drop) else Without(xs[..n], drop) + [xs[n]]
  }

  lemma WithoutNext(xs: seq<Arrival>, n: nat, drop: set<nat>)
    requires n < |xs|
    ensures Without(xs[..n + 1], drop) == if n in drop then Without(xs[..n], drop) else Without(xs[..n], drop) + [xs[n]]
  {
    NextPrefix(xs, n);
  }

  lemma {:induction false} DropSilent(env: Setup, xs: seq<Arrival>, n: nat, drop: set<nat>)
    requires n <= |xs|
    requires forall r :: r in drop && r < |xs| ==> !VerdictAt(env, xs, r).Accepted?
    ensures CoreAfter(env, Without(xs[..n], drop)) == CoreAfter(env, xs[..n])
    ensures Computed(env, Without(xs[..n], drop)) == Computed(env, xs[..n])
  {
    if n > 0 {
      var m := n - 1;
      DropSilent(env, xs, m, drop);
      CoreNext(env, xs, m);
      WithoutNext(xs, m, drop);
      if m in drop {
        IngestOutline(env, CoreAfter(env, xs[..m]), xs[m]);
        assert Computed(env, xs[..m]) + [] == Computed(env, xs[..m]);
      } else {
        Append(env, Without(xs[..m], drop), xs[m]);
      }
    }
  }

  /** At-least-once delivery: leaving out points that repeat accepted ones changes neither what the pipeline
      remembers (log, states, detector, geofence and rule memory) nor the events it computes. */
  lemma RepeatsChangeNothing(env: Setup, xs: seq<Arrival>, drop: set<nat>)
    requires ClockRuns(xs)
    requires forall r :: r in drop && r < |xs| ==> Repeats(env, xs, r)
    ensures CoreAfter(env, Without(xs, drop)) == CoreAfter(env, xs)
    ensures Computed(env, Without(xs, drop)) == Computed(env, xs)
  {
    forall r | r in drop && r < |xs| ensures !VerdictAt(env, xs, r).Accepted? {
      DuplicateIffRepeats(env, xs, r);
      IngestOutline(env, CoreAfter(env, xs[..r]), xs[r]);
    }
    DropSilent(env, xs, |xs|, drop);
    WholePrefix(xs);
  }

  // ---------------------------------------------------------------- the log

  ghost predicate Logged(log: seq<Telemetry>, key: string) {
    exists k :: 0 <= k < |log| && DedupKey(log[k]) == key
  }

  ghost predicate DistinctLogKeys(log: seq<Telemetry>) {
    forall i, j :: 0 <= i < j < |log| ==> DedupKey(log[i]) != DedupKey(log[j])
  }

  /** The points of a stream that were taken. */
  function Taken(xs: seq<Arrival>, took: seq<bool>): (ts: seq<Telemetry>)
    requires |took| <= |xs|
  {
    if took == [] then []
    else
      var n := |took| - 1;
      if took[n] then Taken(xs, took[..n]) + [xs[n].t] else Taken(xs, took[..n])
  }

  /** The log holds the accepted points, in arrival order, and nothing else. */
  lemma {:induction false} LogIsTaken(env: Setup, xs: seq<Arrival>, n: nat)
    requires n <= |xs|
    ensures |Took(env, xs[..n])| == n && CoreAfter(env, xs[..n]).log == Taken(xs, Took(env, xs[..n]))
  {
    if n > 0 {
      LogIsTaken(env, xs, n - 1);
      StreamNext(env, xs, n - 1);
      TakenNext(xs, n - 1, Took(env, xs[..n - 1]), VerdictAt(env, xs, n - 1).Accepted?);
    }
  }

  lemma TakenNext(xs: seq<Arrival>, n: nat, took: seq<bool>, last: bool)
    requires |took| == n < |xs|
    ensures Taken(xs, took + [last]) == if last then Taken(xs, took) + [xs[n].t] else Taken(xs, took)
  {
    Prefixed(took, last);
  }

  lemma {:induction false} TakenFrom(xs: seq<Arrival>, took: seq<bool>, t: Telemetry)
    requires |took| <= |xs| && t in Taken(xs, took)
    ensures exists i :: 0 <= i < |took| && took[i] && xs[i].t == t
  {
    var n := |took| - 1;
    if !(took[n] && xs[n].t == t) {
      TakenFrom(xs, took[..n], t);
    }
  }

  lemma {:induction false} TakenKeys(xs: seq<Arrival>, took: seq<bool>, key: string)
    requires |took| <= |xs|
    ensures Logged(Taken(xs, took), key) <==> exists i :: TookKey(took, xs, i, key)
  {
    if took != [] {
      var n := |took| - 1;
      var front := took[..n];
      assert took == front + [took[n]];
      TakenKeys(xs, front, key);
      LoggedNext(Taken(xs, front), xs[n].t, key);
      forall i ensures TookKey(took, xs, i, key) <==>
        TookKey(front, xs, i, key) || (i == n && took[n] && DedupKey(xs[i].t) == key)
      {
        TookKeyNext(front, xs, took[n], i, key);
      }
    }
  }

  lemma LoggedNext(log: seq<Telemetry>, t: Telemetry, key: string)
    ensures Logged(log + [t], key) <==> Logged(log, key) || DedupKey(t) == key
  {
    if Logged(log, key) {
      var k :| 0 <= k < |log| && DedupKey(log[k]) == key;
      assert (log + [t])[k] == log[k];
    }
    if DedupKey(t) == key {
      assert (log + [t])[|log|] == t;
    }
  }

  /** The log holds accepted points only. */
  lemma LogHoldsAccepted(env: Setup, xs: seq<Arrival>, n: nat, t: Telemetry) returns (i: nat)
    requires n <= |xs| && t in CoreAfter(env, xs[..n]).log
    ensures i < n && xs[i].t == t && VerdictAt(env, xs, i).Accepted?
  {
    LogIsTaken(env, xs, n);
    TakenFrom(xs, Took(env, xs[..n]), t);
    i :| 0 <= i < n && Took(env, xs[..n])[i] && xs[i].t == t;
    AcceptedIsVerdict(env, xs, n, i);
  }

  ghost predicate OneTtl(env: Setup, xs: seq<Arrival>) {
    forall i, j :: 0 <= i < j < |xs| ==> xs[j].clock.dedup - xs[i].clock.dedup < env.ttl
  }

  /** Inside one time to live no key is accepted twice ... */
  lemma NoKeyTwice(env: Setup, xs: seq<Arrival>, i: nat, j: nat)
    requires ClockRuns(xs) && OneTtl(env, xs) && i < j < |xs|
    ensures Took(env, xs)[i] && Took(env, xs)[j] ==> DedupKey(xs[i].t) != DedupKey(xs[j].t)
  {
    if Took(env, xs)[i] && Took(env, xs)[j] {
      AcceptedIsVerdict(env, xs, j, i);
      DuplicateIffRepeats(env, xs, j);
      IngestOutline(env, CoreAfter(env, xs[..j]), xs[j]);
      assert !TookKey(Took(env, xs[..j]), xs, i, DedupKey(xs[j].t));
    }
  }

  /** ... and every key of a point that is not refused is accepted once. */
  lemma EveryKeyOnce(env: Setup, xs: seq<Arrival>, i: nat) returns (k: nat)
    requires ClockRuns(xs) && i < |xs| && Refusal(xs[i].t, xs[i].clock).None?
    ensures TookKey(Took(env, xs), xs, k, DedupKey(xs[i].t))
  {
    WholePrefix(xs);
    DuplicateIffRepeats(env, xs, i);
    IngestOutline(env, CoreAfter(env, xs[..i]), xs[i]);
    if VerdictAt(env, xs, i).Accepted? {
      k := i;
    } else {
      k :| TookKey(Took(env, xs[..i]), xs, k, DedupKey(xs[i].t)) && xs[i].clock.dedup - xs[k].clock.dedup < env.ttl;
      AcceptedIsVerdict(env, xs, i, k);
    }
    AcceptedIsVerdict(env, xs, |xs|, k);
  }

  lemma {:induction false} TakenDistinct(xs: seq<Arrival>, took: seq<bool>)
    requires |took| <= |xs|
    requires forall i, j :: 0 <= i < j < |took| && took[i] && took[j] ==> DedupKey(xs[i].t) != DedupKey(xs[j].t)
    ensures DistinctLogKeys(Taken(xs, took))
  {
    if took != [] {
      var n := |took| - 1;
      TakenDistinct(xs, took[..n]);
      TakenKeys(xs, took[..n], DedupKey(xs[n].t));
      if took[n] {
        DistinctNext(Taken(xs, took[..n]), xs[n].t);
      }
    }
  }

  lemma DistinctNext(log: seq<Telemetry>, t: Telemetry)
    requires DistinctLogKeys(log) && !Logged(log, DedupKey(t))
    ensures DistinctLogKeys(log + [t])
  {
  }

  /** Inside one time to live the log holds exactly one entry for each key of a point that was not refused. */
  lemma OneEntryPerKey(env: Setup, xs: seq<Arrival>)
    requires ClockRuns(xs) && OneTtl(env, xs)
    ensures DistinctLogKeys(CoreAfter(env, xs).log)
    ensures forall i :: 0 <= i < |xs| && Refusal(xs[i].t, xs[i].clock).None? ==>
      Logged(CoreAfter(env, xs).log, DedupKey(xs[i].t))
    ensures |Took(env, xs)| == |xs| && CoreAfter(env, xs).log == Taken(xs, Took(env, xs))
  {
    WholePrefix(xs);
    var took := Took(env, xs);
    LogIsTaken(env, xs, |xs|);
    forall i, j | 0 <= i < j < |took| && took[i] && took[j] ensures DedupKey(xs[i].t) != DedupKey(xs[j].t) {
      NoKeyTwice(env, xs, i, j);
    }
    TakenDistinct(xs, took);
    forall i | 0 <= i < |xs| && Refusal(xs[i].t, xs[i].clock).None?
      ensures Logged(CoreAfter(env, xs).log, DedupKey(xs[i].t))
    {
      var k := EveryKeyOnce(env, xs, i);
      TakenKeys(xs, took, DedupKey(xs[i].t));
    }
  }

  // ---------------------------------------------------------------- hot state and the log

  /** Hot state is the live fold of the log, and every logged point carries an event time. */
  lemma {:induction false} StatesAreLive(env: Setup, xs: seq<Arrival>)
    ensures var c := CoreAfter(env, xs);
      c.states == Rebuild.Live(c.log) && TimesSet(c.log)
  {
    if xs != [] {
      var n := |xs| - 1;
      StatesAreLive(env, xs[..n]);
      var c, x := CoreAfter(env, xs[..n]), xs[n];
      IngestOutline(env, c, x);
      assert (c.log + [x.t])[..|c.log|] == c.log;
    }
  }

  lemma LoggedIsSane(env: Setup, xs: seq<Arrival>, ceiling: int, t: Telemetry)
    requires (forall i :: 0 <= i < |xs| ==> xs[i].clock.skew <= ceiling) && t in CoreAfter(env, xs).log
    ensures WellFormed(t) && t.timestamp <= ceiling + HOUR
  {
    WholePrefix(xs);
    var i := LogHoldsAccepted(env, xs, |xs|, t);
    IngestOutline(env, CoreAfter(env, xs[..i]), xs[i]);
  }

  /** The future bound protects the watermark: if no clock reading exceeds `ceiling`, no vehicle's last-seen is more
      than one hour past it, and every logged point is well formed. */
  lemma {:induction false} WatermarkIsBounded(env: Setup, xs: seq<Arrival>, ceiling: int, v: string)
    requires forall i :: 0 <= i < |xs| ==> xs[i].clock.skew <= ceiling
    ensures v in CoreAfter(env, xs).states ==> CoreAfter(env, xs).states[v].lastSeen <= ceiling + HOUR
    ensures forall t :: t in CoreAfter(env, xs).log ==> WellFormed(t) && t.timestamp <= ceiling + HOUR
  {
    var log := CoreAfter(env, xs).log;
    forall t | t in log ensures WellFormed(t) && t.timestamp <= ceiling + HOUR {
      LoggedIsSane(env, xs, ceiling, t);
    }
    StatesAreLive(env, xs);
    Rebuild.LiveLastSeen(log, v);
  }

  // ---------------------------------------------------------------- vehicles

  /** Everything a core holds about one vehicle, apart from rules. */
  datatype View = View(state: VehicleState, speeding: Detectors.SpeedTrack, idle: Detectors.Debounce.Track,
                       trip: Detectors.TripTrack, member: map<string, bool>)

  function ViewOf(c: Core, v: string): View {
    View(StateOf(c.states, v), Detectors.Lookup(c.memory.speeding, v, Detectors.NO_SPEEDING),
         Detectors.Lookup(c.memory.idle, v, Detectors.NO_IDLING), Detectors.Lookup(c.memory.trips, v, Detectors.NO_TRIP),
         GeoTracker.MemberOf(c.members, v))
  }

  function DerivedEvents(v: Verdict): (es: seq<Event>) {
    if v.Accepted? then v.derived else []
  }

  function SeenAt(c: Core, key: string): Option<int> {
    if key in c.seen then Some(c.seen[key]) else None
  }

  /** A point of another vehicle leaves the view alone. */
  lemma OtherVehicle(env: Setup, c: Core, x: Arrival, v: string, key: string)
    requires x.t.vehicleId != v && DedupKey(x.t) != key
    ensures ViewOf(Ingest(env, c, x).0, v) == ViewOf(c, v)
    ensures SeenAt(Ingest(env, c, x).0, key) == SeenAt(c, key)
  {
  }

  lemma DetectorsAreLocal(m: Detectors.Memory, w: Detectors.Memory, cfg: Detectors.Config, t: Telemetry, motion: Motion)
    requires Detectors.Lookup(m.speeding, t.vehicleId, Detectors.NO_SPEEDING) == Detectors.Lookup(w.speeding, t.vehicleId, Detectors.NO_SPEEDING)
    requires Detectors.Lookup(m.idle, t.vehicleId, Detectors.NO_IDLING) == Detectors.Lookup(w.idle, t.vehicleId, Detectors.NO_IDLING)
    requires Detectors.Lookup(m.trips, t.vehicleId, Detectors.NO_TRIP) == Detectors.Lookup(w.trips, t.vehicleId, Detectors.NO_TRIP)
    ensures var (m', es), (w', fs) := Detectors.DetectSpec(m, cfg, t, motion), Detectors.DetectSpec(w, cfg, t, motion);
      && es == fs
      && t.vehicleId in m'.speeding && t.vehicleId in w'.speeding && m'.speeding[t.vehicleId] == w'.speeding[t.vehicleId]
      && t.vehicleId in m'.idle && t.vehicleId in w'.idle && m'.idle[t.vehicleId] == w'.idle[t.vehicleId]
      && t.vehicleId in m'.trips && t.vehicleId in w'.trips && m'.trips[t.vehicleId] == w'.trips[t.vehicleId]
  {
  }

  lemma FencesAreLocal(fences: Option<seq<GeoTracker.Polygon.Geofence>>, m: GeoTracker.Members, w: GeoTracker.Members, t: Telemetry)
    requires GeoTracker.MemberOf(m, t.vehicleId) == GeoTracker.MemberOf(w, t.vehicleId)
    ensures Fenced(fences, m, t).1 == Fenced(fences, w, t).1
    ensures GeoTracker.MemberOf(Fenced(fences, m, t).0, t.vehicleId) == GeoTracker.MemberOf(Fenced(fences, w, t).0, t.vehicleId)
  {
  }

  lemma AbsorbIsLocal(env: Setup, c: Core, d: Core, x: Arrival)
    requires ViewOf(c, x.t.vehicleId) == ViewOf(d, x.t.vehicleId)
    ensures ViewOf(Absorb(env, c, x).0, x.t.vehicleId) == ViewOf(Absorb(env, d, x).0, x.t.vehicleId)
    ensures Absorb(env, c, x).1.derived == Absorb(env, d, x).1.derived
  {
    var motion := NextState(c.states, x.t).motion;
    assert NextState(c.states, x.t) == NextState(d.states, x.t);
    DetectorsAreLocal(c.memory, d.memory, env.detectors, x.t, motion);
    FencesAreLocal(x.policy.fences, c.members, d.members, x.t);
  }

  /** What a point does to its own vehicle depends on the view and on when its key was seen. */
  lemma OwnVehicle(env: Setup, c: Core, d: Core, x: Arrival)
    requires ViewOf(c, x.t.vehicleId) == ViewOf(d, x.t.vehicleId) && SeenAt(c, DedupKey(x.t)) == SeenAt(d, DedupKey(x.t))
    ensures var (c', v), (d', w) := Ingest(env, c, x), Ingest(env, d, x);
      && ViewOf(c', x.t.vehicleId) == ViewOf(d', x.t.vehicleId)
      && SeenAt(c', DedupKey(x.t)) == SeenAt(d', DedupKey(x.t))
      && DerivedEvents(v) == DerivedEvents(w)
  {
    IngestOutline(env, c, x);
    IngestOutline(env, d, x);
    if Ingest(env, c, x).1.Accepted? {
      var key, now := DedupKey(x.t), x.clock.dedup;
      var c1, d1 := c.(seen := c.seen[key := now]), d.(seen := d.seen[key := now]);
      FreshIsAbsorbed(env, c, c1, x);
      FreshIsAbsorbed(env, d, d1, x);
      AbsorbIsLocal(env, c1, d1, x);
    }
  }

  lemma OwnSeen(env: Setup, c: Core, x: Arrival, key: string)
    requires DedupKey(x.t) != key
    ensures SeenAt(Ingest(env, c, x).0, key) == SeenAt(c, key)
  {
  }

  function OnVehicle(v: string): Arrival -> bool {
    (x: Arrival) => x.t.vehicleId == v
  }

  function OwnArrivals(xs: seq<Arrival>, v: string): (ys: seq<Arrival>) {
    Filter(xs, OnVehicle(v))
  }

  /** The detector and geofence events of one vehicle in a stream. */
  ghost function DerivedOf(env: Setup, xs: seq<Arrival>, v: string): (es: seq<Event>) {
    if xs == [] then []
    else
      var n := |xs| - 1;
      DerivedOf(env, xs[..n], v) + if xs[n].t.vehicleId == v then DerivedEvents(VerdictAt(env, xs, n)) else []
  }

  ghost predicate KeysApart(xs: seq<Arrival>) {
    forall i, j :: 0 <= i < |xs| && 0 <= j < |xs| && xs[i].t.vehicleId != xs[j].t.vehicleId ==>
      DedupKey(xs[i].t) != DedupKey(xs[j].t)
  }

  ghost predicate KeyOf(xs: seq<Arrival>, v: string, key: string) {
    exists i :: 0 <= i < |xs| && xs[i].t.vehicleId == v && DedupKey(xs[i].t) == key
  }

  /** Two cores that cannot be told apart by the points of vehicle `v` in `xs`. */
  ghost predicate AgreeFor(c: Core, d: Core, xs: seq<Arrival>, v: string) {
    && ViewOf(c, v) == ViewOf(d, v)
    && forall key :: KeyOf(xs, v, key) ==> SeenAt(c, key) == SeenAt(d, key)
  }

  lemma OtherStep(env: Setup, c: Core, d: Core, xs: seq<Arrival>, m: nat, v: string)
    requires KeysApart(xs) && m < |xs| && xs[m].t.vehicleId != v && AgreeFor(c, d, xs, v)
    ensures AgreeFor(Ingest(env, c, xs[m]).0, d, xs, v)
  {
    var x := xs[m];
    OtherVehicle(env, c, x, v, DedupKey(x.t) + "x");
    forall key | KeyOf(xs, v, key) ensures SeenAt(Ingest(env, c, x).0, key) == SeenAt(d, key) {
      OtherVehicle(env, c, x, v, key);
    }
  }

  lemma OwnStep(env: Setup, c: Core, d: Core, xs: seq<Arrival>, m: nat, v: string)
    requires m < |xs| && xs[m].t.vehicleId == v && AgreeFor(c, d, xs, v)
    ensures AgreeFor(Ingest(env, c, xs[m]).0, Ingest(env, d, xs[m]).0, xs, v)
    ensures DerivedEvents(Ingest(env, c, xs[m]).1) == DerivedEvents(Ingest(env, d, xs[m]).1)
  {
    var x := xs[m];
    assert KeyOf(xs, v, DedupKey(x.t));
    OwnVehicle(env, c, d, x);
    forall key | KeyOf(xs, v, key) && key != DedupKey(x.t)
      ensures SeenAt(Ingest(env, c, x).0, key) == SeenAt(Ingest(env, d, x).0, key)
    {
      OwnSeen(env, c, x, key);
      OwnSeen(env, d, x, key);
    }
  }

  lemma DerivedAppend(env: Setup, ys: seq<Arrival>, x: Arrival, v: string)
    ensures DerivedOf(env, ys + [x], v)
         == if x.t.vehicleId == v then DerivedOf(env, ys, v) + DerivedEvents(Ingest(env, CoreAfter(env, ys), x).1)
            else DerivedOf(env, ys, v)
  {
    Prefixed(ys, x);
  }

  lemma OwnNext(front: seq<Arrival>, x: Arrival, v: string)
    ensures OwnArrivals(front + [x], v) == if x.t.vehicleId == v then OwnArrivals(front, v) + [x] else OwnArrivals(front, v)
  {
    FilterNext(front, x, OnVehicle(v));
  }

  /** After `n` arrivals the mixed pipeline and the vehicle's own agree for it. */
  lemma {:induction false} CoresAgree(env: Setup, xs: seq<Arrival>, n: nat, v: string)
    requires KeysApart(xs) && n <= |xs|
    ensures AgreeFor(CoreAfter(env, xs[..n]), CoreAfter(env, OwnArrivals(xs[..n], v)), xs, v)
  {
    if n > 0 {
      var m := n - 1;
      var x, front := xs[m], xs[..m];
      CoresAgree(env, xs, m, v);
      assert xs[..n] == front + [x];
      Append(env, front, x);
      OwnNext(front, x, v);
      if x.t.vehicleId == v {
        Append(env, OwnArrivals(front, v), x);
        OwnStep(env, CoreAfter(env, front), CoreAfter(env, OwnArrivals(front, v)), xs, m, v);
      } else {
        OtherStep(env, CoreAfter(env, front), CoreAfter(env, OwnArrivals(front, v)), xs, m, v);
      }
    }
  }

  lemma SameDerived(env: Setup, xs: seq<Arrival>, m: nat, v: string)
    requires KeysApart(xs) && m < |xs| && xs[m].t.vehicleId == v
    ensures DerivedEvents(Ingest(env, CoreAfter(env, xs[..m]), xs[m]).1)
         == DerivedEvents(Ingest(env, CoreAfter(env, OwnArrivals(xs[..m], v)), xs[m]).1)
  {
    CoresAgree(env, xs, m, v);
    OwnStep(env, CoreAfter(env, xs[..m]), CoreAfter(env, OwnArrivals(xs[..m], v)), xs, m, v);
  }

  lemma {:induction false} DerivedAgree(env: Setup, xs: seq<Arrival>, n: nat, v: string)
    requires KeysApart(xs) && n <= |xs|
    ensures DerivedOf(env, xs[..n], v) == DerivedOf(env, OwnArrivals(xs[..n], v), v)
  {
    if n > 0 {
      var m := n - 1;
      var x, front := xs[m], xs[..m];
      DerivedAgree(env, xs, m, v);
      NextPrefix(xs, m);
      DerivedAppend(env, front, x, v);
      OwnNext(front, x, v);
      if x.t.vehicleId == v {
        SameDerived(env, xs, m, v);
        DerivedAppend(env, OwnArrivals(front, v), x, v);
      }
    }
  }

  /** Vehicles do not interfere: when no two of them share a dedup key, any interleaving gives each vehicle the same
      state, detector memory, geofence membership and derived events as its own stream alone. */
  lemma VehiclesDoNotInterfere(env: Setup, xs: seq<Arrival>, v: string)
    requires KeysApart(xs)
    ensures ViewOf(CoreAfter(env, xs), v) == ViewOf(CoreAfter(env, OwnArrivals(xs, v)), v)
    ensures DerivedOf(env, xs, v) == DerivedOf(env, OwnArrivals(xs, v), v)
  {
    CoresAgree(env, xs, |xs|, v);
    DerivedAgree(env, xs, |xs|, v);
    WholePrefix(xs);
  }
}
