/** The in-memory store of hot state, and the offline sweep over it. */
module StateStore {
  import opened Collections
  import opened Schemas
  import opened VehicleStates

  type States = map<string, VehicleState>

  /** A lookup in the store: a vehicle never seen has the empty state. */
  function StateOf(m: States, vehicleId: string): VehicleState {
    if vehicleId in m then m[vehicleId] else EMPTY
  }

  ghost predicate Keyed(m: States) {
    forall id :: id in m ==> m[id].vehicleId == id
  }

  class MemoryStore {
    var m: States

    constructor ()
      ensures m == map[]
    {
      m := map[];
    }

    method Get(vehicleId: string) returns (s: VehicleState, found: bool)
      ensures found == (vehicleId in m) && s == StateOf(m, vehicleId)
    {
      s, found := StateOf(m, vehicleId), vehicleId in m;
    }

    method Set(s: VehicleState)
      modifies this
      ensures m == old(m)[s.vehicleId := s]
    {
      m := m[s.vehicleId := s];
    }
  }

  function OfflineEvent(s: VehicleState, id: string, now: int): Event {
    Event(DeterministicId("vehicle.offline.started", id, now, "sweep"), "vehicle.offline.started", s.tenantId, id, now,
          "", "", "sweep", "", NoPayload, SCHEMA_VERSION)
  }

  function Swept(m: States, now: int): (m': States)
    ensures m'.Keys == m.Keys
  {
    map id | id in m :: CheckOffline(m[id], 0, now).0
  }

  predicate GoesOffline(m: States, id: string, now: int) {
    id in m && CheckOffline(m[id], 0, now).1.Some?
  }

  /** What one visit of the sweeper leaves. */
  function Visited(m: States, id: string, now: int): (m': States) {
    if GoesOffline(m, id, now) then
      var next := CheckOffline(m[id], 0, now).0;
      m[next.vehicleId := next]
    else m
  }

  /** What one visit of the sweeper announces. */
  function VisitEvents(m: States, id: string, now: int): (es: seq<Event>) {
    if GoesOffline(m, id, now) then [OfflineEvent(m[id], id, now)] else []
  }

  /** A visit announces exactly when it turns the vehicle offline, with one valid event that names the vehicle, its
      tenant and the time of the sweep. */
  lemma VisitMeaning(m: States, id: string, now: int)
    requires Keyed(m)
    ensures var es, was, after := VisitEvents(m, id, now), StateOf(m, id).presence, StateOf(Visited(m, id, now), id).presence;
      if was != Offline && after == Offline then
        && |es| == 1 && es[0].eventType == "vehicle.offline.started" && es[0].vehicleId == id && es[0].tenantId == m[id].tenantId
        && es[0].timestamp == now && es[0].correlationId == "sweep" && es[0].schemaVersion == 1 && es[0].id != ""
      else es == [] && Visited(m, id, now) == m
  {
  }

  /** The announcements of a pass that visits the listed vehicles. */
  function Announcements(m: States, ids: seq<string>, now: int): (es: seq<Event>) {
    if ids == [] then []
    else
      var id := ids[|ids| - 1];
      if GoesOffline(m, id, now) then Announcements(m, ids[..|ids| - 1], now) + [OfflineEvent(m[id], id, now)]
      else Announcements(m, ids[..|ids| - 1], now)
  }

  /** How often a vehicle is announced. */
  function Announced(es: seq<Event>, id: string): nat {
    if es == [] then 0 else Announced(es[..|es| - 1], id) + if es[|es| - 1].vehicleId == id then 1 else 0
  }

  /** Listing every vehicle once announces exactly those that fall silent, each once. */
  lemma {:induction false} AnnouncedOnce(m: States, ids: seq<string>, now: int, id: string)
    requires forall i, j :: 0 <= i < j < |ids| ==> ids[i] != ids[j]
    ensures Announced(Announcements(m, ids, now), id) == if id in ids && GoesOffline(m, id, now) then 1 else 0
  {
    if ids != [] {
      var n := |ids| - 1;
      AnnouncedOnce(m, ids[..n], now, id);
      var front := Announcements(m, ids[..n], now);
      assert ids == ids[..n] + [ids[n]];
      if GoesOffline(m, ids[n], now) {
        assert Announcements(m, ids, now)[..|front|] == front;
      }
    }
  }

  /** An announcement of a pass is that of a visit. */
  lemma {:induction false} AnnouncementsAreVisits(m: States, ids: seq<string>, now: int, e: Event) returns (id: string)
    requires e in Announcements(m, ids, now)
    ensures id in ids && VisitEvents(m, id, now) == [e]
  {
    var n := |ids| - 1;
    if e in Announcements(m, ids[..n], now) {
      id := AnnouncementsAreVisits(m, ids[..n], now, e);
    } else {
      id := ids[n];
    }
  }

  /** The state of one pass of the sweeper after visiting the listed vehicles. */
  ghost predicate SweptSoFar(m: States, m': States, ids: seq<string>, now: int) {
    && m'.Keys == m.Keys
    && forall id :: id in m ==> m'[id] == if id in ids then CheckOffline(m[id], 0, now).0 else m[id]
  }

  lemma SweptNext(m: States, m': States, ids: seq<string>, id: string, now: int)
    requires Keyed(m) && SweptSoFar(m, m', ids, now) && id in m && id !in ids
    ensures m'[id] == m[id]
    ensures var next := CheckOffline(m[id], 0, now).0;
      SweptSoFar(m, if GoesOffline(m, id, now) then m'[next.vehicleId := next] else m', ids + [id], now)
  {
  }

  lemma AnnouncementsNext(m: States, ids: seq<string>, id: string, now: int)
    ensures Announcements(m, ids + [id], now)
         == if GoesOffline(m, id, now) then Announcements(m, ids, now) + [OfflineEvent(m[id], id, now)]
            else Announcements(m, ids, now)
  {
    Prefixed(ids, id);
  }

  /** One pass of the sweeper; `ids` is the store's listing of its vehicles, in whatever order. Every vehicle is checked
      against its state from before the pass. */
  method Sweep(store: MemoryStore, ids: seq<string>, now: int) returns (published: seq<Event>)
    requires Keyed(store.m)
    requires forall id :: id in ids <==> id in store.m
    requires forall i, j :: 0 <= i < j < |ids| ==> ids[i] != ids[j]
    modifies store
    ensures store.m == Swept(old(store.m), now)
    ensures published == Announcements(old(store.m), ids, now)
  {
    published := [];
    ghost var m0 := store.m;
    for k := 0 to |ids|
      invariant SweptSoFar(m0, store.m, ids[..k], now)
      invariant published == Announcements(m0, ids[..k], now)
    {
      var id := ids[k];
      NextPrefix(ids, k);
      Unlisted(ids, k);
      SweptNext(m0, store.m, ids[..k], id, now);
      AnnouncementsNext(m0, ids[..k], id, now);
      var more := SweepOne(store, id, now);
      published := published + more;
    }
    WholePrefix(ids);
    SweptAll(m0, store.m, ids, now);
  }

  lemma Unlisted(ids: seq<string>, k: nat)
    requires k < |ids| && forall i, j :: 0 <= i < j < |ids| ==> ids[i] != ids[j]
    ensures ids[k] !in ids[..k]
  {
  }

  lemma SweptAll(m: States, m': States, ids: seq<string>, now: int)
    requires SweptSoFar(m, m', ids, now) && forall id :: id in ids <==> id in m
    ensures m' == Swept(m, now)
  {
  }

  /** The body of the loop: get, check, set, announce. */
  method SweepOne(store: MemoryStore, id: string, now: int) returns (published: seq<Event>)
    modifies store
    ensures store.m == Visited(old(store.m), id, now) && published == VisitEvents(old(store.m), id, now)
  {
    published := [];
    var s, found := store.Get(id);
    if !found {
      return;
    }
    var (next, tr) := CheckOffline(s, 0, now);
    if tr.None? {
      return;
    }
    store.Set(next);
    published := [OfflineEvent(s, id, now)];
  }

  // ---------------------------------------------------------------- the whole fleet

  /** A point is folded into the store, or the sweeper visits one vehicle. */
  datatype FleetStep = Report(t: Telemetry) | Visit(id: string, now: int)

  function FleetRun(steps: seq<FleetStep>): (m: States) {
    if steps == [] then map[]
    else
      var m := FleetRun(steps[..|steps| - 1]);
      match steps[|steps| - 1]
      case Report(t) => m[t.vehicleId := Apply(StateOf(m, t.vehicleId), t).0]
      case Visit(id, now) => Visited(m, id, now)
  }

  /** What one vehicle notices of a fleet run. */
  function Noticed(steps: seq<FleetStep>, v: string): (mine: seq<Step>) {
    if steps == [] then []
    else
      Noticed(steps[..|steps| - 1], v) +
      match steps[|steps| - 1]
      case Report(t) => if t.vehicleId == v then [Point(t)] else []
      case Visit(id, now) => if id == v then [Step.Sweep(0, now)] else []
  }

  lemma RunAppend(mine: seq<Step>, step: Step)
    ensures Run(mine + [step]).0 == Next(Run(mine).0, step)
  {
    Prefixed(mine, step);
  }

  /** Every vehicle of a fleet run goes through its own run of points and sweeps, so the single-vehicle
      results hold of each of them. */
  lemma {:induction false} FleetProjects(steps: seq<FleetStep>, v: string)
    ensures StateOf(FleetRun(steps), v) == Run(Noticed(steps, v)).0
  {
    if steps != [] {
      var n := |steps| - 1;
      FleetProjects(steps[..n], v);
      var mine := Noticed(steps[..n], v);
      match steps[n]
      case Report(t) =>
        if t.vehicleId == v { RunAppend(mine, Point(t)); } else { Unchanged(mine); }
      case Visit(id, now) =>
        FleetIsKeyed(steps[..n]);
        VisitedState(FleetRun(steps[..n]), id, now, v);
        if id == v { RunAppend(mine, Step.Sweep(0, now)); } else { Unchanged(mine); }
    }
  }

  lemma VisitedState(m: States, id: string, now: int, v: string)
    requires Keyed(m)
    ensures StateOf(Visited(m, id, now), v) == if v == id then CheckOffline(StateOf(m, v), 0, now).0 else StateOf(m, v)
  {
  }

  lemma {:induction false} FleetIsKeyed(steps: seq<FleetStep>)
    ensures Keyed(FleetRun(steps))
  {
    if steps != [] { FleetIsKeyed(steps[..|steps| - 1]); }
  }
}
