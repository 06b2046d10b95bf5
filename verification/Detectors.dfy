/** The per-vehicle detectors: speeding, idling and trips. */
module Detectors {
  import opened Collections
  import opened Schemas
  import opened VehicleStates
  import opened Sorting
  import Debounce

  /** `distance` stands for the great-circle distance in kilometres. */
  datatype Config = Config(
    speedLimitKmh: real, speedForSecs: int, speedContinuedEvery: int, idleForSecs: int, tripEndSecs: int,
    distance: (Location, Location) -> real)

  datatype SpeedTrack = SpeedTrack(since: int, started: bool, lastContinued: int)
  datatype SpeedEdge = Quiet | Started | Continued | Ended

  function SpeedOf(t: Telemetry): real {
    if t.speedKmh.Some? then t.speedKmh.value else 0.0
  }

  function SpeedStep(st: SpeedTrack, t: Telemetry, cfg: Config): (r: (SpeedTrack, SpeedEdge)) {
    var over := SpeedOf(t) > cfg.speedLimitKmh;
    var now := t.timestamp;
    if over && !st.started then
      var since := if st.since == 0 then now else st.since;
      if now - since >= cfg.speedForSecs * SECOND then (SpeedTrack(since, true, now), Started)
      else (st.(since := since), Quiet)
    else if over then
      if now - st.lastContinued >= cfg.speedContinuedEvery then (st.(lastContinued := now), Continued)
      else (st, Quiet)
    else if st.started then (st.(started := false, since := 0), Ended)
    else (st.(since := 0), Quiet)
  }

  datatype TripTrack = TripTrack(
    active: bool, id: string, startedAt: int, lastMove: int, distanceKm: real, last: Location, hasLast: bool)

  datatype TripEvent = Begun(id: string) | Finished(id: string, distanceKm: real)

  const NO_SPEEDING := SpeedTrack(0, false, 0)
  const NO_IDLING := Debounce.Track(0, false)
  const NO_TRIP := TripTrack(false, "", 0, 0, 0.0, Location(0.0, 0.0), false)

  function TripId(t: Telemetry): string {
    DeterministicId("trip", t.vehicleId, t.timestamp, "start")
  }

  function TripStep(st: TripTrack, t: Telemetry, moving: bool, cfg: Config): (r: (TripTrack, seq<TripEvent>)) {
    var begins := !st.active && moving;
    var st1 := if begins
      then st.(active := true, id := TripId(t), startedAt := t.timestamp, lastMove := t.timestamp, hasLast := false)
      else st;
    var out1 := if begins then [Begun(st1.id)] else [];
    if !st1.active then (st1, out1)
    else
      var st2 := st1.(
        distanceKm := if st1.hasLast then st1.distanceKm + cfg.distance(st1.last, t.location) else st1.distanceKm,
        last := t.location, hasLast := true,
        lastMove := if moving then t.timestamp else st1.lastMove);
      var ignitionOff := t.ignition == Some(false);
      var expired := t.timestamp - st2.lastMove >= cfg.tripEndSecs * SECOND;
      if ignitionOff || expired then (st2.(active := false), out1 + [Finished(st2.id, st2.distanceKm)])
      else (st2, out1)
  }

  // ---------------------------------------------------------------- events

  function Round(x: real): int {
    if x >= 0.0 then (x + 0.5).Floor else -((-x + 0.5).Floor)
  }

  function SpeedEvents(e: SpeedEdge, t: Telemetry, cfg: Config): (es: seq<Event>) {
    if e == Quiet then []
    else
      [MakeEvent(match e
                 case Started => "vehicle.speeding.started"
                 case Continued => "vehicle.speeding.continued"
                 case _ => "vehicle.speeding.ended",
                 t, "speeding", Speed(SpeedOf(t), cfg.speedLimitKmh, t.location.lat, t.location.lng))]
  }

  function IdleEvents(e: Debounce.Edge, t: Telemetry): (es: seq<Event>) {
    if e == Debounce.Quiet then []
    else
      [MakeEvent(if e == Debounce.Started then "vehicle.idling.started" else "vehicle.idling.ended",
                 t, "idling", Position(t.location.lat, t.location.lng))]
  }

  function TripEventOf(e: TripEvent, t: Telemetry): Event {
    match e
    case Begun(id) => MakeEvent("vehicle.trip.started", t, "trip", TripStart(id, t.location.lat, t.location.lng))
    case Finished(id, d) =>
      MakeEvent("vehicle.trip.ended", t, "trip",
                TripEnd(id, Round(d * 100.0) as real / 100.0, t.location.lat, t.location.lng))
  }

  function TripEvents(es: seq<TripEvent>, t: Telemetry): (out: seq<Event>) {
    if es == [] then [] else [TripEventOf(es[0], t)] + TripEvents(es[1..], t)
  }

  // ---------------------------------------------------------------- the tracker

  datatype Memory = Memory(
    speeding: map<string, SpeedTrack>, idle: map<string, Debounce.Track>, trips: map<string, TripTrack>)

  const FRESH := Memory(map[], map[], map[])

  function Lookup<V>(m: map<string, V>, id: string, default: V): V {
    if id in m then m[id] else default
  }

  function DetectSpec(mem: Memory, cfg: Config, t: Telemetry, motion: Motion): (r: (Memory, seq<Event>)) {
    var v := t.vehicleId;
    var (speeding, e1) := SpeedStep(Lookup(mem.speeding, v, NO_SPEEDING), t, cfg);
    var (idle, e2) := Debounce.Step(Lookup(mem.idle, v, NO_IDLING), Debounce.Sample(t.timestamp, motion == Idle),
                                    cfg.idleForSecs * SECOND);
    var (trip, e3) := TripStep(Lookup(mem.trips, v, NO_TRIP), t, motion == Moving, cfg);
    (Memory(mem.speeding[v := speeding], mem.idle[v := idle], mem.trips[v := trip]),
     SpeedEvents(e1, t, cfg) + IdleEvents(e2, t) + TripEvents(e3, t))
  }

  class Tracker {
    const cfg: Config
    var speeding: map<string, SpeedTrack>
    var idle: map<string, Debounce.Track>
    var trips: map<string, TripTrack>

    ghost function Mem(): Memory
      reads this
    {
      Memory(speeding, idle, trips)
    }

    constructor (cfg: Config)
      ensures this.cfg == cfg && Mem() == FRESH
    {
      this.cfg := cfg;
      speeding, idle, trips := map[], map[], map[];
    }

    method Detect(t: Telemetry, s: VehicleState) returns (out: seq<Event>)
      modifies this
      ensures var r := DetectSpec(old(Mem()), cfg, t, s.motion); Mem() == r.0 && out == r.1
    {
      var a := SpeedingDetect(t);
      var b := IdleDetect(t, s);
      var c := TripDetect(t, s);
      out := a + b + c;
    }

    method SpeedingDetect(t: Telemetry) returns (out: seq<Event>)
      modifies this`speeding
      ensures var (st, e) := SpeedStep(Lookup(old(speeding), t.vehicleId, NO_SPEEDING), t, cfg);
        speeding == old(speeding)[t.vehicleId := st] && out == SpeedEvents(e, t, cfg)
    {
      var st := Lookup(speeding, t.vehicleId, NO_SPEEDING);
      var over := SpeedOf(t) > cfg.speedLimitKmh;
      var now := t.timestamp;
      out := [];
      if over && !st.started {
        if st.since == 0 { st := st.(since := now); }
        if now - st.since >= cfg.speedForSecs * SECOND {
          st := st.(started := true, lastContinued := now);
          out := SpeedEvents(Started, t, cfg);
        }
      } else if over && st.started {
        if now - st.lastContinued >= cfg.speedContinuedEvery {
          st := st.(lastContinued := now);
          out := SpeedEvents(Continued, t, cfg);
        }
      } else if !over && st.started {
        st := st.(started := false, since := 0);
        out := SpeedEvents(Ended, t, cfg);
      } else {
        st := st.(since := 0);
      }
      speeding := speeding[t.vehicleId := st];
    }

    method IdleDetect(t: Telemetry, s: VehicleState) returns (out: seq<Event>)
      modifies this`idle
      ensures var (st, e) := Debounce.Step(Lookup(old(idle), t.vehicleId, NO_IDLING),
                                           Debounce.Sample(t.timestamp, s.motion == Idle), cfg.idleForSecs * SECOND);
        idle == old(idle)[t.vehicleId := st] && out == IdleEvents(e, t)
    {
      var st := Lookup(idle, t.vehicleId, NO_IDLING);
      out := [];
      if s.motion == Idle {
        if st.since == 0 { st := st.(since := t.timestamp); }
        if !st.started && t.timestamp - st.since >= cfg.idleForSecs * SECOND {
          st := st.(started := true);
          out := IdleEvents(Debounce.Started, t);
        }
      } else {
        if st.started { out := IdleEvents(Debounce.Ended, t); }
        st := Debounce.Track(0, false);
      }
      idle := idle[t.vehicleId := st];
    }

    method TripDetect(t: Telemetry, s: VehicleState) returns (out: seq<Event>)
      modifies this`trips
      ensures var (st, es) := TripStep(Lookup(old(trips), t.vehicleId, NO_TRIP), t, s.motion == Moving, cfg);
        trips == old(trips)[t.vehicleId := st] && out == TripEvents(es, t)
    {
      var st := Lookup(trips, t.vehicleId, NO_TRIP);
      var es := [];
      var moving := s.motion == Moving;
      if !st.active && moving {
        st := st.(active := true, id := TripId(t), startedAt := t.timestamp, lastMove := t.timestamp, hasLast := false);
        es := [Begun(st.id)];
      }
      if st.active {
        if st.hasLast { st := st.(distanceKm := st.distanceKm + cfg.distance(st.last, t.location)); }
        st := st.(last := t.location, hasLast := true);
        if moving { st := st.(lastMove := t.timestamp); }
        var ignitionOff := t.ignition.Some? && !t.ignition.value;
        var expired := t.timestamp - st.lastMove >= cfg.tripEndSecs * SECOND;
        if ignitionOff || expired {
          st := st.(active := false);
          es := es + [Finished(st.id, st.distanceKm)];
        }
      }
      trips := trips[t.vehicleId := st];
      out := TripEvents(es, t);
    }
  }

  // ---------------------------------------------------------------- speeding over a history

  /** The track of one vehicle after the first `i` of its points. */
  function SpeedTrackAt(h: seq<Telemetry>, i: nat, cfg: Config): SpeedTrack
    requires i <= |h|
  {
    if i == 0 then NO_SPEEDING else SpeedStep(SpeedTrackAt(h, i - 1, cfg), h[i - 1], cfg).0
  }

  function SpeedEdgeAt(h: seq<Telemetry>, i: nat, cfg: Config): SpeedEdge
    requires i < |h|
  {
    SpeedStep(SpeedTrackAt(h, i, cfg), h[i], cfg).1
  }

  /** The reported speed is above the limit; a point without a speed counts as standing. */
  predicate Over(t: Telemetry, limit: real) {
    match t.speedKmh
    case Some(v) => v > limit
    case None => 0.0 > limit
  }

  /** A history as over-limit samples. */
  function OverSamples(h: seq<Telemetry>, cfg: Config): (s: seq<Debounce.Sample>)
    ensures |s| == |h|
    ensures forall i :: 0 <= i < |h| ==> s[i] == Debounce.Sample(h[i].timestamp, Over(h[i], cfg.speedLimitKmh))
  {
    seq(|h|, i requires 0 <= i < |h| => Debounce.Sample(h[i].timestamp, Over(h[i], cfg.speedLimitKmh)))
  }

  /** The last started or continued event before `i`, as an index. */
  function LastMark(h: seq<Telemetry>, i: nat, cfg: Config): (m: Option<nat>)
    requires i <= |h|
    ensures m.Some? ==> m.value < i
  {
    if i == 0 then None
    else if SpeedEdgeAt(h, i - 1, cfg) in {Started, Continued} then Some(i - 1)
    else LastMark(h, i - 1, cfg)
  }

  lemma {:induction false} SpeedTrackMeaning(h: seq<Telemetry>, i: nat, cfg: Config)
    requires TimesSet(h) && i <= |h|
    ensures var st, tr := SpeedTrackAt(h, i, cfg), Debounce.TrackAt(OverSamples(h, cfg), i, cfg.speedForSecs * SECOND);
      && st.since == tr.since && st.started == tr.started && (st.started ==> st.since != 0)
      && (st.started ==> LastMark(h, i, cfg).Some? && st.lastContinued == h[LastMark(h, i, cfg).value].timestamp)
  {
    if i > 0 {
      SpeedTrackMeaning(h, i - 1, cfg);
    }
  }

  /** What the speeding detector is to say at point `i`: started and ended as the hold-off defines them, continued at the
      points inside a started block that are at least the configured interval after the last started or continued
      event. */
  ghost function SpeedSays(h: seq<Telemetry>, i: nat, cfg: Config): SpeedEdge
    requires i < |h|
  {
    var s, hold := OverSamples(h, cfg), cfg.speedForSecs * SECOND;
    if Debounce.StartsAt(s, i, hold) then Started
    else if Debounce.EndsAt(s, i, hold) then Ended
    else if && s[i].on && i > 0 && s[i - 1].on && Debounce.Held(s, i - 1, hold)
            && LastMark(h, i, cfg).Some?
            && h[i].timestamp - h[LastMark(h, i, cfg).value].timestamp >= cfg.speedContinuedEvery then Continued
    else Quiet
  }

  /** The speeding detector equals its declarative meaning over the whole history, in any point order. */
  lemma SpeedingMeaning(h: seq<Telemetry>, i: nat, cfg: Config)
    requires TimesSet(h) && i < |h|
    ensures SpeedEdgeAt(h, i, cfg) == SpeedSays(h, i, cfg)
  {
    var s, hold := OverSamples(h, cfg), cfg.speedForSecs * SECOND;
    SpeedTrackMeaning(h, i, cfg);
    Debounce.TrackMeaning(s, i, hold);
    Debounce.DebounceMeaning(s, i, hold);
  }

  function ContinuedCount(h: seq<Telemetry>, i: nat, j: nat, cfg: Config): nat
    requires i <= j < |h|
  {
    if i == j then 0
    else ContinuedCount(h, i, j - 1, cfg) + if SpeedEdgeAt(h, j, cfg) == Continued then 1 else 0
  }

  ghost predicate MarksFrom(h: seq<Telemetry>, i: nat, j: nat, cfg: Config)
    requires i <= j < |h|
  {
    && SpeedEdgeAt(h, i, cfg) in {Started, Continued}
    && forall k :: i < k <= j ==> Over(h[k], cfg.speedLimitKmh)
  }

  /** From a started or continued event on, a block that stays over the limit stays started, and its marks are its own. */
  lemma {:induction false} BlockStaysStarted(h: seq<Telemetry>, i: nat, j: nat, cfg: Config)
    requires TimesSet(h) && i <= j < |h| && MarksFrom(h, i, j, cfg)
    ensures SpeedTrackAt(h, j + 1, cfg).started
    ensures LastMark(h, j + 1, cfg).Some? && LastMark(h, j + 1, cfg).value >= i
    decreases j
  {
    if i < j {
      BlockStaysStarted(h, i, j - 1, cfg);
      StaysStarted(SpeedTrackAt(h, j, cfg), h[j], cfg);
    }
  }

  /** In such a block a continued event is at least one interval after the mark before it. */
  lemma ContinuedGap(h: seq<Telemetry>, i: nat, j: nat, cfg: Config)
    requires TimesSet(h) && i < j < |h| && MarksFrom(h, i, j, cfg)
    ensures LastMark(h, j, cfg).Some?
    ensures SpeedEdgeAt(h, j, cfg) == Continued || SpeedEdgeAt(h, j, cfg) == Quiet
    ensures SpeedEdgeAt(h, j, cfg) == Continued ==>
      h[j].timestamp - h[LastMark(h, j, cfg).value].timestamp >= cfg.speedContinuedEvery
  {
    BlockStaysStarted(h, i, j - 1, cfg);
    SpeedTrackMeaning(h, j, cfg);
    var st := SpeedTrackAt(h, j, cfg);
    assert st.started && SpeedEdgeAt(h, j, cfg) == SpeedStep(st, h[j], cfg).1;
    StaysStarted(st, h[j], cfg);
  }

  /** The mark is at least `n` intervals after point `i`. */
  ghost predicate Spaced(h: seq<Telemetry>, i: nat, mark: Option<nat>, n: nat, every: int) {
    i < |h| && mark.Some? && mark.value < |h| && h[mark.value].timestamp - h[i].timestamp >= n * every
  }

  lemma SpacedNext(h: seq<Telemetry>, i: nat, mark: Option<nat>, n: nat, every: int, j: nat)
    requires Spaced(h, i, mark, n, every) && j < |h| && h[j].timestamp - h[mark.value].timestamp >= every
    ensures Spaced(h, i, Some(j), n + 1, every)
  {
    OneMore(n, every, h[mark.value].timestamp - h[i].timestamp, h[j].timestamp - h[i].timestamp);
  }

  /** From a started or continued event at `i`, over points that stay over the limit up to `j`, the `n` continued
      events after it span at least `n` intervals. */
  lemma {:induction false} ContinuedAreSpaced(h: seq<Telemetry>, i: nat, j: nat, cfg: Config)
    requires TimesSet(h) && i <= j < |h| && MarksFrom(h, i, j, cfg)
    ensures Spaced(h, i, LastMark(h, j + 1, cfg), ContinuedCount(h, i, j, cfg), cfg.speedContinuedEvery)
    decreases j
  {
    MarkNext(h, j, cfg);
    if i < j {
      ContinuedAreSpaced(h, i, j - 1, cfg);
      ContinuedGap(h, i, j, cfg);
      if SpeedEdgeAt(h, j, cfg) == Continued {
        SpacedNext(h, i, LastMark(h, j, cfg), ContinuedCount(h, i, j - 1, cfg), cfg.speedContinuedEvery, j);
      }
    }
  }

  lemma MarkNext(h: seq<Telemetry>, j: nat, cfg: Config)
    requires j < |h|
    ensures LastMark(h, j + 1, cfg) == if SpeedEdgeAt(h, j, cfg) in {Started, Continued} then Some(j) else LastMark(h, j, cfg)
  {
  }

  /** Over the limit a started block goes on, and continues only after the interval. */
  lemma StaysStarted(st: SpeedTrack, t: Telemetry, cfg: Config)
    requires st.started && Over(t, cfg.speedLimitKmh)
    ensures SpeedStep(st, t, cfg).0.started
    ensures SpeedStep(st, t, cfg).1 == Continued || SpeedStep(st, t, cfg).1 == Quiet
    ensures SpeedStep(st, t, cfg).1 == Continued ==> t.timestamp - st.lastContinued >= cfg.speedContinuedEvery
  {
  }

  lemma OneMore(n: nat, every: int, span: int, longer: int)
    requires span >= n * every
    ensures longer - span >= every ==> longer >= (n + 1) * every
  {
  }

  /** The speeding event of an edge, as its reader sees it: its type, the reported speed, the limit and the position. */
  ghost predicate TellsSpeed(e: Event, edge: SpeedEdge, t: Telemetry, cfg: Config) {
    && e.eventType == (match edge
                       case Started => "vehicle.speeding.started"
                       case Continued => "vehicle.speeding.continued"
                       case _ => "vehicle.speeding.ended")
    && e.payload.Speed? && (t.speedKmh.Some? ==> e.payload.speedKmh == t.speedKmh.value)
    && (t.speedKmh.None? ==> e.payload.speedKmh == 0.0)
    && e.payload.limitKmh == cfg.speedLimitKmh && e.payload.lat == t.location.lat && e.payload.lng == t.location.lng
    && e.vehicleId == t.vehicleId && e.timestamp == t.timestamp && e.causationId == t.id
    && e.id == DeterministicId(e.eventType, t.vehicleId, t.timestamp, "speeding")
  }

  /** An edge gives exactly one event, which tells the truth about its point, and a quiet step gives none; started and
      continued are above the limit and ended is not, so with a limit that is not negative a point without a speed
      neither starts nor continues speeding. */
  lemma SpeedEventsAreTrue(st: SpeedTrack, t: Telemetry, cfg: Config)
    ensures var edge := SpeedStep(st, t, cfg).1; var es := SpeedEvents(edge, t, cfg);
      && (edge == Quiet ==> es == [])
      && (edge != Quiet ==> |es| == 1 && TellsSpeed(es[0], edge, t, cfg))
      && (edge in {Started, Continued} ==> Over(t, cfg.speedLimitKmh))
      && (edge == Ended ==> !Over(t, cfg.speedLimitKmh))
      && (cfg.speedLimitKmh >= 0.0 && t.speedKmh.None? ==> edge !in {Started, Continued})
  {
  }

  /** The idling event of an edge. */
  ghost predicate TellsIdling(e: Event, edge: Debounce.Edge, t: Telemetry) {
    && e.eventType == (if edge == Debounce.Started then "vehicle.idling.started" else "vehicle.idling.ended")
    && e.payload == Position(t.location.lat, t.location.lng)
    && e.vehicleId == t.vehicleId && e.timestamp == t.timestamp && e.causationId == t.id
    && e.id == DeterministicId(e.eventType, t.vehicleId, t.timestamp, "idling")
  }

  lemma IdleEventsAreTrue(edge: Debounce.Edge, t: Telemetry)
    ensures var es := IdleEvents(edge, t);
      if edge == Debounce.Quiet then es == [] else |es| == 1 && TellsIdling(es[0], edge, t)
  {
  }

  // ---------------------------------------------------------------- trips over a history

  datatype Sighting = Sighting(t: Telemetry, moving: bool)

  function TripAt(h: seq<Sighting>, i: nat, cfg: Config): TripTrack
    requires i <= |h|
  {
    if i == 0 then NO_TRIP else TripStep(TripAt(h, i - 1, cfg), h[i - 1].t, h[i - 1].moving, cfg).0
  }

  function TripEventsAt(h: seq<Sighting>, i: nat, cfg: Config): seq<TripEvent>
    requires i < |h|
  {
    TripStep(TripAt(h, i, cfg), h[i].t, h[i].moving, cfg).1
  }

  /** All trip events of the first `i` points. */
  function TripTrace(h: seq<Sighting>, i: nat, cfg: Config): (es: seq<TripEvent>)
    requires i <= |h|
  {
    if i == 0 then [] else TripTrace(h, i - 1, cfg) + TripEventsAt(h, i - 1, cfg)
  }

  /** Started and ended strictly alternate, started first, each ended carrying its started's id. */
  ghost predicate Paired(es: seq<TripEvent>) {
    && (forall k :: 0 <= k < |es| ==> es[k].Begun? == (k % 2 == 0))
    && (forall k :: 0 < k < |es| && k % 2 == 1 ==> es[k].id == es[k - 1].id)
  }

  lemma PairedBegin(es: seq<TripEvent>, id: string)
    requires Paired(es) && |es| % 2 == 0
    ensures Paired(es + [Begun(id)]) && |es + [Begun(id)]| % 2 == 1
  {
  }

  lemma PairedFinish(es: seq<TripEvent>, id: string, d: real)
    requires Paired(es) && |es| % 2 == 1 && es[|es| - 1].id == id
    ensures Paired(es + [Finished(id, d)]) && |es + [Finished(id, d)]| % 2 == 0
  {
  }

  /** The events so far pair up, and a trip is open exactly when the last event is a start. */
  ghost predicate PairedWith(es: seq<TripEvent>, st: TripTrack) {
    && Paired(es)
    && st.active == (|es| % 2 == 1)
    && (st.active ==> es[|es| - 1].id == st.id)
  }

  /** The events of one point: a start if one begins, an end if one ends. */
  lemma TripStepShape(st: TripTrack, x: Sighting, cfg: Config)
    ensures var (st', more) := TripStep(st, x.t, x.moving, cfg);
      var begins, ends := !st.active && x.moving, (st.active || x.moving) && !st'.active;
      && more == (if begins then [Begun(st'.id)] else []) + (if ends then [Finished(st'.id, st'.distanceKm)] else [])
      && (st.active ==> st'.id == st.id)
      && (!st.active && !x.moving ==> st' == st)
  {
  }

  lemma PairedNext(es: seq<TripEvent>, st: TripTrack, begins: bool, ends: bool, id: string, d: real)
    requires PairedWith(es, st) && (begins ==> !st.active) && (ends ==> st.active || begins) && (st.active ==> id == st.id)
    ensures var es' := es + ((if begins then [Begun(id)] else []) + (if ends then [Finished(id, d)] else []));
      && Paired(es')
      && (|es'| % 2 == 1 <==> (st.active || begins) && !ends)
      && (|es'| % 2 == 1 ==> es'[|es'| - 1].id == id)
  {
    var mid := es + if begins then [Begun(id)] else [];
    if begins { PairedBegin(es, id); } else { assert mid == es; }
    var tail := if ends then [Finished(id, d)] else [];
    if ends { PairedFinish(mid, id, d); } else { assert mid + tail == mid; }
    assert es + ((if begins then [Begun(id)] else []) + tail) == mid + tail;
  }

  /** For any point order, trip events pair up, and a trip is open exactly when the last event is a start. */
  lemma {:induction false} TripEventsPair(h: seq<Sighting>, i: nat, cfg: Config)
    requires i <= |h|
    ensures PairedWith(TripTrace(h, i, cfg), TripAt(h, i, cfg))
  {
    if i > 0 {
      TripEventsPair(h, i - 1, cfg);
      var st, st', x := TripAt(h, i - 1, cfg), TripAt(h, i, cfg), h[i - 1];
      TripStepShape(st, x, cfg);
      PairedNext(TripTrace(h, i - 1, cfg), st, !st.active && x.moving, (st.active || x.moving) && !st'.active, st'.id, st'.distanceKm);
    }
  }

  lemma Rounding(x: real)
    ensures -0.5 <= Round(x) as real - x <= 0.5
  {
  }

  // ---------------------------------------------------------------- when trips begin and end

  /** The last moving sighting of the trip that began at `s`, its first one included. */
  function LastMoving(h: seq<Sighting>, s: nat, j: nat): (k: nat)
    requires s <= j < |h|
    ensures s <= k <= j && (k == s || h[k].moving) && forall i :: k < i <= j ==> !h[i].moving
  {
    if j == s || h[j].moving then j else LastMoving(h, s, j - 1)
  }

  /** The trip that began at `s` ends at `j`: ignition off, or too long since it last moved. */
  predicate EndsAt(h: seq<Sighting>, s: nat, j: nat, cfg: Config)
    requires s <= j < |h|
  {
    || h[j].t.ignition == Some(false)
    || h[j].t.timestamp - h[LastMoving(h, s, j)].t.timestamp >= cfg.tripEndSecs * SECOND
  }

  /** Where the trip began that is open before sighting `i`. */
  function OpenSince(h: seq<Sighting>, i: nat, cfg: Config): (s: Option<nat>)
    requires i <= |h|
    ensures s.Some? ==> s.value < i
  {
    if i == 0 then None
    else
      var before := OpenSince(h, i - 1, cfg);
      var s := if before.Some? then before else if h[i - 1].moving then Some(i - 1) else None;
      if s.Some? && EndsAt(h, s.value, i - 1, cfg) then None else s
  }

  /** An open trip began at a moving sighting when none was open, and has not ended since. */
  lemma {:induction false} OpenSinceMeaning(h: seq<Sighting>, i: nat, cfg: Config)
    requires i <= |h|
    ensures OpenSince(h, i, cfg).Some? ==>
      var s := OpenSince(h, i, cfg).value;
      h[s].moving && OpenSince(h, s, cfg).None? && forall j :: s <= j < i ==> !EndsAt(h, s, j, cfg)
  {
    if i > 0 { OpenSinceMeaning(h, i - 1, cfg); }
  }

  /** What one sighting does, given where the open trip began. */
  lemma TripStepMeaning(st: TripTrack, h: seq<Sighting>, i: nat, before: Option<nat>, cfg: Config)
    requires i < |h| && (before.Some? ==> before.value < i) && st.active == before.Some?
    requires before.Some? ==> st.lastMove == h[LastMoving(h, before.value, i - 1)].t.timestamp
    ensures var s := if before.Some? then before.value else i;
      var open := before.Some? || h[i].moving;
      var (st', es) := TripStep(st, h[i].t, h[i].moving, cfg);
      && st'.active == (open && !EndsAt(h, s, i, cfg))
      && (open ==> st'.lastMove == h[LastMoving(h, s, i)].t.timestamp)
      && st'.id == (if before.None? && h[i].moving then TripId(h[i].t) else st.id)
      && es == (if before.None? && h[i].moving then [Begun(TripId(h[i].t))] else []) +
               (if open && EndsAt(h, s, i, cfg) then [Finished(st'.id, st'.distanceKm)] else [])
  {
  }

  /** The track of a vehicle whose open trip began at `s`. */
  ghost predicate TrackFits(st: TripTrack, h: seq<Sighting>, i: nat, s: Option<nat>)
    requires i <= |h|
  {
    && st.active == s.Some?
    && (s.Some? ==> s.value < i && st.lastMove == h[LastMoving(h, s.value, i - 1)].t.timestamp && st.id == TripId(h[s.value].t))
  }

  lemma TrackFitsNext(st: TripTrack, h: seq<Sighting>, i: nat, before: Option<nat>, cfg: Config)
    requires i < |h| && TrackFits(st, h, i, before)
    ensures var s := if before.Some? then before else if h[i].moving then Some(i) else None;
      TrackFits(TripStep(st, h[i].t, h[i].moving, cfg).0, h, i + 1, if s.Some? && EndsAt(h, s.value, i, cfg) then None else s)
  {
    TripStepMeaning(st, h, i, before, cfg);
  }

  lemma {:induction false} TripTrackMeaning(h: seq<Sighting>, i: nat, cfg: Config)
    requires i <= |h|
    ensures TrackFits(TripAt(h, i, cfg), h, i, OpenSince(h, i, cfg))
  {
    if i > 0 {
      TripTrackMeaning(h, i - 1, cfg);
      TrackFitsNext(TripAt(h, i - 1, cfg), h, i - 1, OpenSince(h, i - 1, cfg), cfg);
    }
  }

  /** What the trip detector is to say at sighting `i`. */
  ghost function TripSays(h: seq<Sighting>, i: nat, cfg: Config): seq<TripEvent>
    requires i < |h|
  {
    var before := OpenSince(h, i, cfg);
    var opens, s := before.None? && h[i].moving, if before.Some? then before.value else i;
    (if opens then [Begun(TripId(h[i].t))] else []) +
    (if (before.Some? || opens) && EndsAt(h, s, i, cfg) then [Finished(TripId(h[s].t), TripAt(h, i + 1, cfg).distanceKm)] else [])
  }

  /** The trip detector equals its declarative meaning over the whole history, in any point order: a trip opens at a
      sighting exactly when none is open and the vehicle moves, and the open trip ends at a sighting exactly when that
      reports ignition off or is at least TripEndSecs after the last moving sighting of the trip. */
  lemma TripMeaning(h: seq<Sighting>, i: nat, cfg: Config)
    requires i < |h|
    ensures TripEventsAt(h, i, cfg) == TripSays(h, i, cfg)
  {
    TripTrackMeaning(h, i, cfg);
    TripStepMeaning(TripAt(h, i, cfg), h, i, OpenSince(h, i, cfg), cfg);
  }

  /** The published event of a trip event: its type, the trip's id, and an ended trip's distance to within half a
      hundredth of a kilometre. */
  ghost predicate TellsTrip(e: Event, te: TripEvent, t: Telemetry) {
    && e.vehicleId == t.vehicleId && e.timestamp == t.timestamp && e.causationId == t.id
    && e.id == DeterministicId(e.eventType, t.vehicleId, t.timestamp, "trip")
    && match te
       case Begun(id) => e.eventType == "vehicle.trip.started" && e.payload == TripStart(id, t.location.lat, t.location.lng)
       case Finished(id, d) =>
         && e.eventType == "vehicle.trip.ended" && e.payload.TripEnd? && e.payload.tripId == id
         && e.payload.lat == t.location.lat && e.payload.lng == t.location.lng
         && -0.005 <= e.payload.distanceKm - d <= 0.005
  }

  lemma {:induction false} TripEventsCarry(es: seq<TripEvent>, t: Telemetry, k: nat)
    requires k < |es|
    ensures |TripEvents(es, t)| == |es| && TellsTrip(TripEvents(es, t)[k], es[k], t)
  {
    if es[0].Finished? { Rounding(es[0].distanceKm * 100.0); }
    if |es| > 1 {
      TripEventsCarry(es[1..], t, if k == 0 then 0 else k - 1);
    }
  }

  /** The trips of the first `i` points as index spans, read off the emitted events. */
  datatype Book = Book(closed: seq<(nat, nat)>, open: Option<nat>)

  function BookStep(book: Book, es: seq<TripEvent>, at: nat): Book {
    var begun := if es != [] && es[0].Begun? then book.(open := Some(at)) else book;
    if es != [] && es[|es| - 1].Finished? && begun.open.Some?
    then Book(begun.closed + [(begun.open.value, at)], None)
    else begun
  }

  function BookAt(h: seq<Sighting>, i: nat, cfg: Config): Book
    requires i <= |h|
  {
    if i == 0 then Book([], None) else BookStep(BookAt(h, i - 1, cfg), TripEventsAt(h, i - 1, cfg), i - 1)
  }

  /** The hops between consecutive points from `from` to `to`. */
  function HopSum(h: seq<Sighting>, from: nat, to: nat, cfg: Config): real {
    if to >= |h| || from >= to then 0.0
    else HopSum(h, from, to - 1, cfg) + cfg.distance(h[to - 1].t.location, h[to].t.location)
  }

  predicate SpansWithin(spans: seq<(nat, nat)>, n: nat) {
    && (forall k :: 0 <= k < |spans| ==> spans[k].0 <= spans[k].1 < n)
    && (forall j, k :: 0 <= j < k < |spans| ==> spans[j].1 < spans[k].0)
  }

  function SpanSum(h: seq<Sighting>, spans: seq<(nat, nat)>, cfg: Config): real {
    if spans == [] then 0.0
    else
      var n := |spans| - 1;
      SpanSum(h, spans[..n], cfg) + HopSum(h, spans[n].0, spans[n].1, cfg)
  }

  /** The pre-rounding distances of the ended events so far. */
  function Distances(es: seq<TripEvent>): (ds: seq<real>) {
    if es == [] then []
    else
      var n := |es| - 1;
      Distances(es[..n]) + if es[n].Finished? then [es[n].distanceKm] else []
  }

  /** A book and a track that agree over the first `i` points, the last of which is `i - 1`. */
  ghost predicate Agrees(h: seq<Sighting>, i: nat, b: Book, st: TripTrack, cfg: Config)
    requires i <= |h|
  {
    && SpansWithin(b.closed, i)
    && st.active == b.open.Some?
    && (b.open.Some? ==>
          && b.open.value < i && st.id == TripId(h[b.open.value].t)
          && (forall k :: 0 <= k < |b.closed| ==> b.closed[k].1 < b.open.value)
          && st.hasLast && st.last == h[i - 1].t.location)
    && st.distanceKm == SpanSum(h, b.closed, cfg) +
                        (if b.open.Some? then HopSum(h, b.open.value, i - 1, cfg) else 0.0)
  }

  lemma SpanSumNext(h: seq<Sighting>, spans: seq<(nat, nat)>, from: nat, to: nat, cfg: Config)
    ensures SpanSum(h, spans + [(from, to)], cfg) == SpanSum(h, spans, cfg) + HopSum(h, from, to, cfg)
  {
    assert (spans + [(from, to)])[..|spans|] == spans;
  }

  /** How book and track move at one point: nothing, or the open trip goes on, or it closes. */
  ghost predicate NextBook(b: Book, st: TripTrack, x: Sighting, at: nat, b': Book, st': TripTrack, cfg: Config) {
    var open := if st.active then b.open else if x.moving then Some(at) else None;
    if open.None? then st' == st && b' == b
    else
      && st'.id == (if st.active then st.id else TripId(x.t)) && st'.last == x.t.location && st'.hasLast
      && st'.distanceKm == st.distanceKm + (if st.active then cfg.distance(st.last, x.t.location) else 0.0)
      && b' == (if st'.active then b.(open := open) else Book(b.closed + [(open.value, at)], None))
  }

  lemma BookMoves(b: Book, st: TripTrack, x: Sighting, at: nat, cfg: Config)
    requires st.active == b.open.Some? && (st.active ==> st.hasLast)
    ensures var (st', es) := TripStep(st, x.t, x.moving, cfg);
      NextBook(b, st, x, at, BookStep(b, es, at), st', cfg)
  {
  }

  lemma BookNext(h: seq<Sighting>, p: nat, cfg: Config)
    requires p < |h|
    requires TripAt(h, p, cfg).active == BookAt(h, p, cfg).open.Some? && (TripAt(h, p, cfg).active ==> TripAt(h, p, cfg).hasLast)
    ensures NextBook(BookAt(h, p, cfg), TripAt(h, p, cfg), h[p], p, BookAt(h, p + 1, cfg), TripAt(h, p + 1, cfg), cfg)
  {
    BookMoves(BookAt(h, p, cfg), TripAt(h, p, cfg), h[p], p, cfg);
  }

  lemma HopNext(h: seq<Sighting>, from: nat, p: nat, cfg: Config)
    requires from <= p < |h|
    ensures from == p ==> HopSum(h, from, p, cfg) == 0.0
    ensures from < p ==>
      HopSum(h, from, p, cfg) == HopSum(h, from, p - 1, cfg) + cfg.distance(h[p - 1].t.location, h[p].t.location)
  {
  }

  lemma AgreesNext(h: seq<Sighting>, p: nat, b: Book, st: TripTrack, b': Book, st': TripTrack, cfg: Config)
    requires p < |h| && Agrees(h, p, b, st, cfg) && NextBook(b, st, h[p], p, b', st', cfg)
    ensures Agrees(h, p + 1, b', st', cfg)
  {
    if st.active || h[p].moving {
      var open := if st.active then b.open.value else p;
      HopNext(h, open, p, cfg);
      var total := SpanSum(h, b.closed, cfg);
      assert st'.distanceKm == total + HopSum(h, open, p, cfg);
      if !st'.active {
        SpanSumNext(h, b.closed, open, p, cfg);
      }
    }
  }

  /** Book and track agree after every point. */
  lemma {:induction false} TripBookAgrees(h: seq<Sighting>, i: nat, cfg: Config)
    requires i <= |h|
    ensures Agrees(h, i, BookAt(h, i, cfg), TripAt(h, i, cfg), cfg)
  {
    if i > 0 {
      TripBookAgrees(h, i - 1, cfg);
      BookNext(h, i - 1, cfg);
      AgreesNext(h, i - 1, BookAt(h, i - 1, cfg), TripAt(h, i - 1, cfg), BookAt(h, i, cfg), TripAt(h, i, cfg), cfg);
    }
  }

  lemma DistancesNext(es: seq<TripEvent>, e: TripEvent)
    ensures Distances(es + [e]) == if e.Finished? then Distances(es) + [e.distanceKm] else Distances(es)
  {
    Prefixed(es, e);
  }

  lemma DistancesOf(es: seq<TripEvent>, begins: bool, ends: bool, id: string, d: real)
    ensures Distances(es + ((if begins then [Begun(id)] else []) + (if ends then [Finished(id, d)] else [])))
         == if ends then Distances(es) + [d] else Distances(es)
  {
    var mid := es + if begins then [Begun(id)] else [];
    if begins { DistancesNext(es, Begun(id)); } else { assert mid == es; }
    var tail := if ends then [Finished(id, d)] else [];
    if ends { DistancesNext(mid, Finished(id, d)); } else { assert mid + tail == mid; }
    assert es + ((if begins then [Begun(id)] else []) + tail) == mid + tail;
  }

  lemma DistancesStep(es: seq<TripEvent>, st: TripTrack, x: Sighting, cfg: Config)
    ensures var (st', more) := TripStep(st, x.t, x.moving, cfg);
      Distances(es + more) == Distances(es) + if (st.active || x.moving) && !st'.active then [st'.distanceKm] else []
  {
    var st' := TripStep(st, x.t, x.moving, cfg).0;
    TripStepShape(st, x, cfg);
    DistancesOf(es, !st.active && x.moving, (st.active || x.moving) && !st'.active, st'.id, st'.distanceKm);
  }

  /** The distances reported for a list of closed trips: each is the total so far. */
  ghost predicate RunningTotals(h: seq<Sighting>, spans: seq<(nat, nat)>, ds: seq<real>, cfg: Config) {
    && |ds| == |spans|
    && forall n :: 0 <= n < |ds| ==> ds[n] == SpanSum(h, spans[..n + 1], cfg)
  }

  lemma RunningTotalsNext(h: seq<Sighting>, spans: seq<(nat, nat)>, ds: seq<real>, span: (nat, nat), d: real, cfg: Config)
    requires RunningTotals(h, spans, ds, cfg) && d == SpanSum(h, spans + [span], cfg)
    ensures RunningTotals(h, spans + [span], ds + [d], cfg)
  {
    var spans', ds' := spans + [span], ds + [d];
    forall n | 0 <= n < |ds'| ensures ds'[n] == SpanSum(h, spans'[..n + 1], cfg) {
      if n < |ds| {
        assert spans'[..n + 1] == spans[..n + 1];
      } else {
        assert spans'[..n + 1] == spans';
      }
    }
  }

  /** The distance that the n-th ended event reports, before rounding, is the sum of the hops inside trips 1 to n;
      no hop across a gap between trips is counted. */
  lemma {:induction false} TripDistances(h: seq<Sighting>, i: nat, cfg: Config)
    requires i <= |h|
    ensures SpansWithin(BookAt(h, i, cfg).closed, i)
    ensures RunningTotals(h, BookAt(h, i, cfg).closed, Distances(TripTrace(h, i, cfg)), cfg)
  {
    TripBookAgrees(h, i, cfg);
    if i > 0 {
      var p := i - 1;
      TripDistances(h, p, cfg);
      TripBookAgrees(h, p, cfg);
      TraceNext(h, p, cfg);
      TotalsNext(h, p, BookAt(h, p, cfg), TripAt(h, p, cfg), BookAt(h, i, cfg), TripAt(h, i, cfg),
                 Distances(TripTrace(h, p, cfg)), Distances(TripTrace(h, i, cfg)), cfg);
    }
  }

  lemma TraceNext(h: seq<Sighting>, p: nat, cfg: Config)
    requires p < |h|
    requires TripAt(h, p, cfg).active == BookAt(h, p, cfg).open.Some? && (TripAt(h, p, cfg).active ==> TripAt(h, p, cfg).hasLast)
    ensures NextBook(BookAt(h, p, cfg), TripAt(h, p, cfg), h[p], p, BookAt(h, p + 1, cfg), TripAt(h, p + 1, cfg), cfg)
    ensures Distances(TripTrace(h, p + 1, cfg)) == Distances(TripTrace(h, p, cfg)) +
      if (TripAt(h, p, cfg).active || h[p].moving) && !TripAt(h, p + 1, cfg).active then [TripAt(h, p + 1, cfg).distanceKm] else []
  {
    BookNext(h, p, cfg);
    DistancesStep(TripTrace(h, p, cfg), TripAt(h, p, cfg), h[p], cfg);
  }

  lemma TotalsNext(h: seq<Sighting>, p: nat, b: Book, st: TripTrack, b': Book, st': TripTrack,
                   ds: seq<real>, ds': seq<real>, cfg: Config)
    requires p < |h| && Agrees(h, p, b, st, cfg) && Agrees(h, p + 1, b', st', cfg)
    requires NextBook(b, st, h[p], p, b', st', cfg)
    requires RunningTotals(h, b.closed, ds, cfg)
    requires ds' == ds + if (st.active || h[p].moving) && !st'.active then [st'.distanceKm] else []
    ensures RunningTotals(h, b'.closed, ds', cfg)
  {
    var open := if st.active then b.open else if h[p].moving then Some(p) else None;
    if open.Some? && !st'.active {
      RunningTotalsNext(h, b.closed, ds, (open.value, p), st'.distanceKm, cfg);
    }
  }

  /** The running total is never reset, so the n-th ended event reports its own trip's distance exactly when the
      trips before it covered none. */
  lemma ReportsOwnTripIff(h: seq<Sighting>, i: nat, n: nat, cfg: Config)
    requires i <= |h| && n < |BookAt(h, i, cfg).closed|
    ensures |Distances(TripTrace(h, i, cfg))| == |BookAt(h, i, cfg).closed|
    ensures var spans, ds := BookAt(h, i, cfg).closed, Distances(TripTrace(h, i, cfg));
      ds[n] == HopSum(h, spans[n].0, spans[n].1, cfg) <==> SpanSum(h, spans[..n], cfg) == 0.0
  {
    TripDistances(h, i, cfg);
    var spans := BookAt(h, i, cfg).closed;
    NextPrefix(spans, n);
  }

  /** Two drives with a stop after each. */
  function TwoTrips(a: Telemetry, b: Telemetry, c: Telemetry, d: Telemetry): seq<Sighting> {
    [Sighting(a, Classify(Unset, a) == Moving), Sighting(b, Classify(Moving, b) == Moving),
     Sighting(c, Classify(Stopped, c) == Moving), Sighting(d, Classify(Moving, d) == Moving)]
  }

  lemma TripBegins(st: TripTrack, t: Telemetry, cfg: Config)
    requires !st.active && t.ignition != Some(false) && cfg.tripEndSecs > 0
    ensures var (st', es) := TripStep(st, t, true, cfg);
      st'.active && st'.hasLast && st'.last == t.location && st'.distanceKm == st.distanceKm && es == [Begun(st'.id)]
  {
  }

  lemma TripCloses(st: TripTrack, t: Telemetry, cfg: Config)
    requires st.active && st.hasLast && t.ignition == Some(false)
    ensures var (st', es) := TripStep(st, t, false, cfg);
      && !st'.active && st'.distanceKm == st.distanceKm + cfg.distance(st.last, t.location)
      && es == [Finished(st.id, st'.distanceKm)]
  {
  }

  /** No trip is open, `total` is the distance so far, and these are the distances reported. */
  ghost predicate Parked(h: seq<Sighting>, i: nat, total: real, reported: seq<real>, cfg: Config) {
    i <= |h| && !TripAt(h, i, cfg).active && TripAt(h, i, cfg).distanceKm == total && Distances(TripTrace(h, i, cfg)) == reported
  }

  /** A trip of one hop adds the hop to the total and reports the total. */
  lemma OneHopTrip(h: seq<Sighting>, i: nat, total: real, reported: seq<real>, cfg: Config)
    requires Parked(h, i, total, reported, cfg) && i + 2 <= |h| && cfg.tripEndSecs > 0
    requires h[i].moving && h[i].t.ignition != Some(false) && !h[i + 1].moving && h[i + 1].t.ignition == Some(false)
    ensures var sum := total + cfg.distance(h[i].t.location, h[i + 1].t.location);
      Parked(h, i + 2, sum, reported + [sum], cfg)
  {
    var st, mid := TripAt(h, i, cfg), TripAt(h, i + 1, cfg);
    TripBegins(st, h[i].t, cfg);
    TripCloses(mid, h[i + 1].t, cfg);
    DistancesStep(TripTrace(h, i, cfg), st, h[i], cfg);
    DistancesStep(TripTrace(h, i + 1, cfg), mid, h[i + 1], cfg);
    Unchanged(Distances(TripTrace(h, i, cfg)));
  }

  predicate Drives(t: Telemetry) {
    t.speedKmh.Some? && t.speedKmh.value > MOVING_THRESHOLD && t.ignition == Some(true)
  }

  predicate Parks(t: Telemetry) {
    t.speedKmh.Some? && t.speedKmh.value < STOPPED_THRESHOLD && t.ignition == Some(false)
  }

  /** The failing family: four points in time order that drive, park, drive and park. The second trip reports both
      hops, so it is wrong whenever the first hop is not zero. */
  lemma SecondTripReportsBoth(a: Telemetry, b: Telemetry, c: Telemetry, d: Telemetry, cfg: Config)
    requires Drives(a) && Parks(b) && Drives(c) && Parks(d) && cfg.tripEndSecs > 0
    requires a.timestamp < b.timestamp < c.timestamp < d.timestamp
    ensures var one, two := cfg.distance(a.location, b.location), cfg.distance(c.location, d.location);
      Distances(TripTrace(TwoTrips(a, b, c, d), |TwoTrips(a, b, c, d)|, cfg)) == [one, one + two]
  {
    var h := TwoTrips(a, b, c, d);
    var one, n := cfg.distance(a.location, b.location), |h|;
    assert Parked(h, n - 4, 0.0, [], cfg);
    OneHopTrip(h, n - 4, 0.0, [], cfg);
    OneHopTrip(h, n - 2, one, [one], cfg);
  }

  // ---------------------------------------------------------------- many vehicles

  datatype Input = Input(t: Telemetry, motion: Motion)

  /** The tracker's memory after a stream of points of any vehicles. */
  function MemoryAfter(xs: seq<Input>, cfg: Config): (mem: Memory) {
    if xs == [] then FRESH
    else
      var n := |xs| - 1;
      DetectSpec(MemoryAfter(xs[..n], cfg), cfg, xs[n].t, xs[n].motion).0
  }

  function OnVehicle(v: string): Input -> bool {
    (x: Input) => x.t.vehicleId == v
  }

  function Points(xs: seq<Input>): (h: seq<Telemetry>)
    ensures |h| == |xs|
  {
    seq(|xs|, i requires 0 <= i < |xs| => xs[i].t)
  }

  function IdleSamples(xs: seq<Input>): (h: seq<Debounce.Sample>)
    ensures |h| == |xs|
  {
    seq(|xs|, i requires 0 <= i < |xs| => Debounce.Sample(xs[i].t.timestamp, xs[i].motion == Idle))
  }

  function Sightings(xs: seq<Input>): (h: seq<Sighting>)
    ensures |h| == |xs|
  {
    seq(|xs|, i requires 0 <= i < |xs| => Sighting(xs[i].t, xs[i].motion == Moving))
  }

  lemma {:induction false} HistoryPrefix(xs: seq<Input>, x: Input, i: nat, cfg: Config)
    requires i <= |xs|
    ensures SpeedTrackAt(Points(xs + [x]), i, cfg) == SpeedTrackAt(Points(xs), i, cfg)
    ensures TripAt(Sightings(xs + [x]), i, cfg) == TripAt(Sightings(xs), i, cfg)
    ensures Debounce.TrackAt(IdleSamples(xs + [x]), i, cfg.idleForSecs * SECOND)
         == Debounce.TrackAt(IdleSamples(xs), i, cfg.idleForSecs * SECOND)
  {
    if i > 0 {
      HistoryPrefix(xs, x, i - 1, cfg);
    }
  }

  /** What a tracker holds for a vehicle are the tracks over these inputs. */
  ghost predicate HoldsTracks(mem: Memory, v: string, mine: seq<Input>, cfg: Config) {
    && Lookup(mem.speeding, v, NO_SPEEDING) == SpeedTrackAt(Points(mine), |mine|, cfg)
    && Lookup(mem.idle, v, NO_IDLING) == Debounce.TrackAt(IdleSamples(mine), |mine|, cfg.idleForSecs * SECOND)
    && Lookup(mem.trips, v, NO_TRIP) == TripAt(Sightings(mine), |mine|, cfg)
  }

  /** The tracks after one more input. */
  lemma TracksNext(mine: seq<Input>, x: Input, cfg: Config)
    ensures var n, all := |mine|, mine + [x];
      && SpeedTrackAt(Points(all), n + 1, cfg) == SpeedStep(SpeedTrackAt(Points(mine), n, cfg), x.t, cfg).0
      && TripAt(Sightings(all), n + 1, cfg) == TripStep(TripAt(Sightings(mine), n, cfg), x.t, x.motion == Moving, cfg).0
      && Debounce.TrackAt(IdleSamples(all), n + 1, cfg.idleForSecs * SECOND)
         == Debounce.Step(Debounce.TrackAt(IdleSamples(mine), n, cfg.idleForSecs * SECOND),
                          Debounce.Sample(x.t.timestamp, x.motion == Idle), cfg.idleForSecs * SECOND).0
  {
    HistoryPrefix(mine, x, |mine|, cfg);
  }

  lemma DetectHolds(mem: Memory, v: string, mine: seq<Input>, x: Input, cfg: Config)
    requires HoldsTracks(mem, v, mine, cfg)
    ensures HoldsTracks(DetectSpec(mem, cfg, x.t, x.motion).0, v, if x.t.vehicleId == v then mine + [x] else mine, cfg)
  {
    TracksNext(mine, x, cfg);
  }

  /** The tracker gives every vehicle its own three detectors, each run over that vehicle's points alone, so the
      meanings above hold for each vehicle of a mixed stream. */
  lemma {:induction false} TrackerProjects(xs: seq<Input>, v: string, cfg: Config)
    ensures HoldsTracks(MemoryAfter(xs, cfg), v, Filter(xs, OnVehicle(v)), cfg)
  {
    if xs != [] {
      var front, x := xs[..|xs| - 1], xs[|xs| - 1];
      SplitLast(xs);
      TrackerProjects(front, v, cfg);
      FilterNext(front, x, OnVehicle(v));
      DetectHolds(MemoryAfter(front, cfg), v, Filter(front, OnVehicle(v)), x, cfg);
    }
  }
}
