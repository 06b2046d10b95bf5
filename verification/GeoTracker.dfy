/**
 Membership of vehicles in geofences. One evaluation makes a list of
 observations (fence, inside?) and every observation that disagrees with the
 remembered membership flips it and emits one event.
 */
module GeoTracker {
  import opened Collections
  import opened Schemas
  import opened Polygon

  datatype Observation = Observation(fence: Geofence, inside: bool)

  /** A lookup in a Go map: a missing fence reads as outside. */
  predicate Member(mem: map<string, bool>, id: string) {
    id in mem && mem[id]
  }

  /** Fold observations into the membership; the result lists the ones that flipped it. */
  function Observe(mem: map<string, bool>, obs: seq<Observation>): (map<string, bool>, seq<Observation>) {
    if obs == [] then (mem, [])
    else
      var o := obs[|obs| - 1];
      var (m, flips) := Observe(mem, obs[..|obs| - 1]);
      if o.inside == Member(m, o.fence.id) then (m, flips)
      else (m[o.fence.id := o.inside], flips + [o])
  }

  /** The full check of every fence of a list. */
  ghost function Judge(fences: seq<Geofence>, p: Point): (obs: seq<Observation>)
    ensures |obs| == |fences| && forall k :: 0 <= k < |obs| ==> obs[k].fence == fences[k]
  {
    if fences == [] then []
    else
      var n := |fences| - 1;
      Judge(fences[..n], p) + [Observation(fences[n], Inside(fences[n].polygon, p))]
  }

  ghost function LeftBehindObservations(fences: seq<Geofence>, p: Point): (obs: seq<Observation>) {
    if fences == [] then []
    else
      var n := |fences| - 1;
      if InBox(fences[n].polygon, p) then LeftBehindObservations(fences[..n], p)
      else LeftBehindObservations(fences[..n], p) + [Observation(fences[n], false)]
  }

  /** What one evaluation looks at: first the box candidates, then every fence whose box was left. */
  ghost function Observations(fences: seq<Geofence>, p: Point): (obs: seq<Observation>) {
    Judge(Candidates(fences, p), p) + LeftBehindObservations(fences, p)
  }

  function FenceEvent(t: Telemetry, o: Observation): Event {
    MakeEvent(if o.inside then "vehicle.geofence.entered" else "vehicle.geofence.exited", t, o.fence.id,
              Fence(o.fence.id, o.fence.name, t.location.lat, t.location.lng))
  }

  function FenceEvents(t: Telemetry, flips: seq<Observation>): (es: seq<Event>)
    ensures |es| == |flips|
  {
    if flips == [] then []
    else FenceEvents(t, flips[..|flips| - 1]) + [FenceEvent(t, flips[|flips| - 1])]
  }

  /** One event for each flip, in order: entered when it found the vehicle inside, exited when outside. */
  lemma {:induction false} FenceEventsAt(t: Telemetry, flips: seq<Observation>, k: nat)
    requires k < |flips|
    ensures var e := FenceEvents(t, flips)[k];
      && e.eventType == (if flips[k].inside then "vehicle.geofence.entered" else "vehicle.geofence.exited")
      && e.payload == Fence(flips[k].fence.id, flips[k].fence.name, t.location.lat, t.location.lng)
      && e.vehicleId == t.vehicleId && e.timestamp == t.timestamp && e.causationId == t.id
      && e.id == DeterministicId(e.eventType, t.vehicleId, t.timestamp, flips[k].fence.id)
  {
    var n := |flips| - 1;
    AppendedAt(FenceEvents(t, flips[..n]), FenceEvent(t, flips[n]), k);
    if k < n { FenceEventsAt(t, flips[..n], k); }
  }

  function PositionOf(t: Telemetry): Point {
    Point(t.location.lat, t.location.lng)
  }

  type Members = map<string, map<string, bool>>

  function MemberOf(members: Members, vehicleId: string): map<string, bool> {
    if vehicleId in members then members[vehicleId] else map[]
  }

  /** The whole effect of one evaluation on the membership table, and what flipped. */
  ghost function EvaluateSpec(members: Members, fences: seq<Geofence>, t: Telemetry): (Members, seq<Observation>) {
    var (mem, flips) := Observe(MemberOf(members, t.vehicleId), Observations(fences, PositionOf(t)));
    (members[t.vehicleId := mem], flips)
  }

  class Tracker {
    var fences: seq<Geofence>
    var members: Members

    constructor (fences: seq<Geofence>)
      ensures this.fences == fences && members == map[]
    {
      this.fences := fences;
      members := map[];
    }

    method SetFences(fences: seq<Geofence>)
      modifies this`fences
      ensures this.fences == fences
    {
      this.fences := fences;
    }

    method Evaluate(t: Telemetry) returns (out: seq<Event>)
      modifies this`members
      ensures members == EvaluateSpec(old(members), fences, t).0
      ensures out == FenceEvents(t, EvaluateSpec(old(members), fences, t).1)
    {
      var p := PositionOf(t);
      var mem0 := MemberOf(members, t.vehicleId);
      var obs := CheckCandidates(fences, p);
      var mem, flips := Absorb(mem0, obs);
      mem, flips := CheckLeftBehind(mem0, mem, flips, fences, p);
      members := members[t.vehicleId := mem];
      out := FenceEvents(t, flips);
    }
  }

  /** The candidate loop: the full check of each candidate ... */
  method CheckCandidates(fences: seq<Geofence>, p: Point) returns (obs: seq<Observation>)
    ensures obs == Judge(Candidates(fences, p), p)
  {
    obs := [];
    var candidates := CandidateFilter(fences, p);
    for k := 0 to |candidates|
      invariant obs == Judge(candidates[..k], p)
    {
      var inside := Contains(candidates[k], p);
      NextPrefix(candidates, k);
      obs := obs + [Observation(candidates[k], inside)];
    }
    WholePrefix(candidates);
  }

  /** ... compared with the membership. */
  method Absorb(mem0: map<string, bool>, obs: seq<Observation>) returns (mem: map<string, bool>, flips: seq<Observation>)
    ensures (mem, flips) == Observe(mem0, obs)
  {
    mem, flips := mem0, [];
    for k := 0 to |obs|
      invariant (mem, flips) == Observe(mem0, obs[..k])
    {
      var Observation(g, inside) := obs[k];
      var was := Member(mem, g.id);
      ObserveNext(mem0, obs[..k], obs[k]);
      NextPrefix(obs, k);
      if inside && !was {
        mem, flips := mem[g.id := true], flips + [obs[k]];
      } else if !inside && was {
        mem, flips := mem[g.id := false], flips + [obs[k]];
      }
    }
    WholePrefix(obs);
  }

  /** The loop over the fences whose box the vehicle has left. */
  method CheckLeftBehind(ghost mem0: map<string, bool>, mem: map<string, bool>, flips: seq<Observation>,
                         fences: seq<Geofence>, p: Point)
    returns (mem': map<string, bool>, flips': seq<Observation>)
    requires (mem, flips) == Observe(mem0, Judge(Candidates(fences, p), p))
    ensures (mem', flips') == Observe(mem0, Observations(fences, p))
  {
    mem', flips' := mem, flips;
    ghost var first := Judge(Candidates(fences, p), p);
    assert first + LeftBehindObservations(fences[..0], p) == first;
    for k := 0 to |fences|
      invariant (mem', flips') == Observe(mem0, first + LeftBehindObservations(fences[..k], p))
    {
      var g := fences[k];
      var stillCandidate := BoxHit(g.polygon, p);
      ObserveLeftBehind(mem0, first, fences, k, p);
      if Member(mem', g.id) && !stillCandidate {
        mem', flips' := mem'[g.id := false], flips' + [Observation(g, false)];
      }
    }
    WholePrefix(fences);
  }

  lemma ObserveLeftBehind(mem: map<string, bool>, first: seq<Observation>, fences: seq<Geofence>, k: nat, p: Point)
    requires k < |fences|
    ensures var before, g := Observe(mem, first + LeftBehindObservations(fences[..k], p)), fences[k];
      Observe(mem, first + LeftBehindObservations(fences[..k + 1], p))
      == if InBox(g.polygon, p) || !Member(before.0, g.id) then before
         else (before.0[g.id := false], before.1 + [Observation(g, false)])
  {
    var left, o := LeftBehindObservations(fences[..k], p), Observation(fences[k], false);
    LeftBehindNext(fences, k, p);
    ObserveNext(mem, first + left, o);
    assert first + (left + [o]) == (first + left) + [o];
  }

  lemma LeftBehindNext(fences: seq<Geofence>, k: nat, p: Point)
    requires k < |fences|
    ensures LeftBehindObservations(fences[..k + 1], p)
         == if InBox(fences[k].polygon, p) then LeftBehindObservations(fences[..k], p)
            else LeftBehindObservations(fences[..k], p) + [Observation(fences[k], false)]
  {
    NextPrefix(fences, k);
  }

  lemma ObserveNext(mem: map<string, bool>, obs: seq<Observation>, o: Observation)
    ensures Observe(mem, obs + [o])
         == var (m, flips) := Observe(mem, obs);
            if o.inside == Member(m, o.fence.id) then (m, flips) else (m[o.fence.id := o.inside], flips + [o])
  {
    Prefixed(obs, o);
  }

  // ---------------------------------------------------------------- one evaluation

  /** The last observation of a fence id, when there is one. */
  function LastSeen(obs: seq<Observation>, id: string): Option<bool> {
    if obs == [] then None
    else if obs[|obs| - 1].fence.id == id then Some(obs[|obs| - 1].inside)
    else LastSeen(obs[..|obs| - 1], id)
  }

  lemma {:induction false} ObserveRemembersLast(mem: map<string, bool>, obs: seq<Observation>, id: string)
    ensures Member(Observe(mem, obs).0, id)
         == match LastSeen(obs, id) case None => Member(mem, id) case Some(b) => b
  {
    if obs != [] {
      ObserveRemembersLast(mem, obs[..|obs| - 1], id);
    }
  }

  lemma {:induction false} LastSeenConcat(a: seq<Observation>, b: seq<Observation>, id: string)
    ensures LastSeen(a + b, id) == if LastSeen(b, id).Some? then LastSeen(b, id) else LastSeen(a, id)
  {
    if b == [] {
      assert a + b == a;
    } else {
      LastSeenConcat(a, b[..|b| - 1], id);
      assert (a + b)[..|a + b| - 1] == a + b[..|b| - 1];
    }
  }

  /** The last fence of a list that carries an id. */
  function LastFence(fences: seq<Geofence>, id: string): Option<Geofence> {
    if fences == [] then None
    else if fences[|fences| - 1].id == id then Some(fences[|fences| - 1])
    else LastFence(fences[..|fences| - 1], id)
  }

  lemma {:induction false} LastFenceMeaning(fences: seq<Geofence>, id: string)
    ensures LastFence(fences, id).None? <==> forall g :: g in fences ==> g.id != id
    ensures LastFence(fences, id).Some? ==> LastFence(fences, id).value in fences && LastFence(fences, id).value.id == id
  {
    if fences != [] {
      var n := |fences| - 1;
      LastFenceMeaning(fences[..n], id);
      assert fences == fences[..n] + [fences[n]];
    }
  }

  lemma {:induction false} LastJudged(fences: seq<Geofence>, p: Point, id: string)
    ensures LastSeen(Judge(fences, p), id)
         == match LastFence(fences, id) case None => None case Some(g) => Some(Inside(g.polygon, p))
  {
    if fences != [] {
      var n := |fences| - 1;
      LastJudged(fences[..n], p, id);
      assert Judge(fences, p)[..n] == Judge(fences[..n], p);
    }
  }

  lemma {:induction false} LastCandidate(fences: seq<Geofence>, p: Point, id: string)
    ensures LastFence(fences, id).None? ==> LastFence(Candidates(fences, p), id).None?
    ensures LastFence(fences, id).Some? && InBox(LastFence(fences, id).value.polygon, p) ==>
      LastFence(Candidates(fences, p), id) == LastFence(fences, id)
  {
    if fences != [] {
      var n := |fences| - 1;
      LastCandidate(fences[..n], p, id);
      var front := Candidates(fences[..n], p);
      assert (front + [fences[n]])[..|front|] == front && front + [] == front;
    }
  }

  lemma {:induction false} LastLeftBehind(fences: seq<Geofence>, p: Point, id: string)
    ensures LastSeen(LeftBehindObservations(fences, p), id)
         == if exists g :: g in fences && g.id == id && !InBox(g.polygon, p) then Some(false) else None
  {
    if fences != [] {
      var n := |fences| - 1;
      LastLeftBehind(fences[..n], p, id);
      assert fences == fences[..n] + [fences[n]];
      var front := LeftBehindObservations(fences[..n], p);
      assert (front + [Observation(fences[n], false)])[..|front|] == front;
    }
  }

  /** What membership is after an evaluation, for any fence list, repeated ids included: a vehicle is a
      member of an id when the last fence with that id contains it and every fence with that id has it in its box. */
  lemma MembershipAfter(members: Members, fences: seq<Geofence>, t: Telemetry, id: string)
    ensures var p := PositionOf(t);
      Member(MemberOf(EvaluateSpec(members, fences, t).0, t.vehicleId), id)
      == match LastFence(fences, id)
         case None => Member(MemberOf(members, t.vehicleId), id)
         case Some(g) => Inside(g.polygon, p) && forall h :: h in fences && h.id == id ==> InBox(h.polygon, p)
  {
    var p := PositionOf(t);
    var mem := MemberOf(members, t.vehicleId);
    var a, b := Judge(Candidates(fences, p), p), LeftBehindObservations(fences, p);
    ObserveRemembersLast(mem, a + b, id);
    LastSeenConcat(a, b, id);
    LastJudged(Candidates(fences, p), p, id);
    LastCandidate(fences, p, id);
    LastLeftBehind(fences, p, id);
    LastFenceMeaning(fences, id);
    if LastFence(fences, id).Some? {
      OneFence(LastFence(fences, id).value, p);
    }
  }

  ghost predicate UniqueIds(fences: seq<Geofence>) {
    forall i, j :: 0 <= i < j < |fences| ==> fences[i].id != fences[j].id
  }

  /** The observations that differ from the remembered membership. */
  function Changed(mem: map<string, bool>, obs: seq<Observation>): (flips: seq<Observation>) {
    if obs == [] then []
    else
      var o := obs[|obs| - 1];
      Changed(mem, obs[..|obs| - 1]) + if o.inside == Member(mem, o.fence.id) then [] else [o]
  }

  ghost predicate UniqueObs(obs: seq<Observation>) {
    forall i, j :: 0 <= i < j < |obs| ==> obs[i].fence.id != obs[j].fence.id
  }

  /** Without repeated ids an observation is compared with the membership from before the evaluation. */
  lemma {:induction false} ObserveUnique(mem: map<string, bool>, obs: seq<Observation>)
    requires UniqueObs(obs)
    ensures Observe(mem, obs).1 == Changed(mem, obs)
  {
    if obs != [] {
      var n := |obs| - 1;
      ObserveUnique(mem, obs[..n]);
      ObserveRemembersLast(mem, obs[..n], obs[n].fence.id);
      NotSeen(obs[..n], obs[n].fence.id);
    }
  }

  lemma {:induction false} NotSeen(obs: seq<Observation>, id: string)
    requires forall o :: o in obs ==> o.fence.id != id
    ensures LastSeen(obs, id).None?
  {
    if obs != [] {
      NotSeen(obs[..|obs| - 1], id);
    }
  }

  lemma {:induction false} ChangedCount(mem: map<string, bool>, obs: seq<Observation>, o: Observation)
    ensures multiset(Changed(mem, obs))[o] == if o.inside == Member(mem, o.fence.id) then 0 else multiset(obs)[o]
  {
    if obs != [] {
      var n := |obs| - 1;
      assert obs == obs[..n] + [obs[n]];
      ChangedCount(mem, obs[..n], o);
    }
  }

  lemma ChangedPermuted(mem: map<string, bool>, a: seq<Observation>, b: seq<Observation>)
    requires multiset(a) == multiset(b)
    ensures multiset(Changed(mem, a)) == multiset(Changed(mem, b))
  {
    forall o ensures multiset(Changed(mem, a))[o] == multiset(Changed(mem, b))[o] {
      ChangedCount(mem, a, o);
      ChangedCount(mem, b, o);
    }
  }

  lemma {:induction false} CandidateMembers(fences: seq<Geofence>, p: Point)
    ensures forall g :: g in Candidates(fences, p) ==> g in fences && InBox(g.polygon, p)
    ensures UniqueIds(fences) ==> UniqueIds(Candidates(fences, p))
  {
    if fences != [] {
      var n := |fences| - 1;
      assert fences == fences[..n] + [fences[n]];
      CandidateMembers(fences[..n], p);
    }
  }

  lemma {:induction false} LeftBehindMembers(fences: seq<Geofence>, p: Point)
    ensures forall o :: o in LeftBehindObservations(fences, p) ==> o.fence in fences && !InBox(o.fence.polygon, p)
    ensures UniqueIds(fences) ==> UniqueObs(LeftBehindObservations(fences, p))
  {
    if fences != [] {
      var n := |fences| - 1;
      assert fences == fences[..n] + [fences[n]];
      LeftBehindMembers(fences[..n], p);
    }
  }

  lemma SameIdSameFence(fences: seq<Geofence>, g: Geofence, h: Geofence)
    requires UniqueIds(fences) && g in fences && h in fences && g.id == h.id
    ensures g == h
  {
    var x :| 0 <= x < |fences| && fences[x] == g;
    var y :| 0 <= y < |fences| && fences[y] == h;
  }

  lemma UniqueObservations(fences: seq<Geofence>, p: Point)
    requires UniqueIds(fences)
    ensures UniqueObs(Observations(fences, p))
  {
    CandidateMembers(fences, p);
    LeftBehindMembers(fences, p);
    var cs := Candidates(fences, p);
    var a, b := Judge(cs, p), LeftBehindObservations(fences, p);
    forall i, j | 0 <= i < |a| && 0 <= j < |b| ensures a[i].fence.id != b[j].fence.id {
      assert cs[i] in cs && b[j] in b;
      if cs[i].id == b[j].fence.id { SameIdSameFence(fences, cs[i], b[j].fence); }
    }
  }

  /** The prefilter only reorders the full check of every fence. */
  lemma {:induction false} ObservationsPermuted(fences: seq<Geofence>, p: Point)
    ensures multiset(Observations(fences, p)) == multiset(Judge(fences, p))
  {
    if fences != [] {
      var n := |fences| - 1;
      ObservationsPermuted(fences[..n], p);
      OneFence(fences[n], p);
      var front := Candidates(fences[..n], p);
      assert (front + [fences[n]])[..|front|] == front && front + [] == front;
    }
  }

  lemma OneFence(g: Geofence, p: Point)
    ensures !InBox(g.polygon, p) ==> !Inside(g.polygon, p)
  {
    if Inside(g.polygon, p) { PrefilterSound(g.polygon, p); }
  }

  /** With unique ids the evaluation is the naive check of every fence: afterwards membership is containment,
      and the flips are, as a multiset, exactly the changes of membership. */
  lemma EvaluateIsNaive(members: Members, fences: seq<Geofence>, t: Telemetry)
    requires UniqueIds(fences)
    ensures var (after, flips) := EvaluateSpec(members, fences, t);
      && multiset(flips) == multiset(Changed(MemberOf(members, t.vehicleId), Judge(fences, PositionOf(t))))
      && (forall g :: g in fences ==>
            Member(MemberOf(after, t.vehicleId), g.id) == Inside(g.polygon, PositionOf(t)))
      && (forall v :: v != t.vehicleId ==> MemberOf(after, v) == MemberOf(members, v))
  {
    FlipsAreChanges(members, fences, t);
    forall g | g in fences
      ensures Member(MemberOf(EvaluateSpec(members, fences, t).0, t.vehicleId), g.id) == Inside(g.polygon, PositionOf(t))
    {
      MembershipIsContainment(members, fences, t, g);
    }
  }

  lemma FlipsAreChanges(members: Members, fences: seq<Geofence>, t: Telemetry)
    requires UniqueIds(fences)
    ensures multiset(EvaluateSpec(members, fences, t).1)
         == multiset(Changed(MemberOf(members, t.vehicleId), Judge(fences, PositionOf(t))))
  {
    var p, mem := PositionOf(t), MemberOf(members, t.vehicleId);
    UniqueObservations(fences, p);
    ObserveUnique(mem, Observations(fences, p));
    ObservationsPermuted(fences, p);
    ChangedPermuted(mem, Observations(fences, p), Judge(fences, p));
  }

  lemma MembershipIsContainment(members: Members, fences: seq<Geofence>, t: Telemetry, g: Geofence)
    requires UniqueIds(fences) && g in fences
    ensures Member(MemberOf(EvaluateSpec(members, fences, t).0, t.vehicleId), g.id) == Inside(g.polygon, PositionOf(t))
  {
    MembershipAfter(members, fences, t, g.id);
    LastFenceMeaning(fences, g.id);
    SameIdSameFence(fences, g, LastFence(fences, g.id).value);
    OneFence(g, PositionOf(t));
    forall h | h in fences && h.id == g.id ensures h == g {
      SameIdSameFence(fences, g, h);
    }
  }

  /** The flips of one fence id: true is entered. */
  function FlipsOf(flips: seq<Observation>, id: string): (h: seq<bool>) {
    if flips == [] then []
    else
      var o := flips[|flips| - 1];
      FlipsOf(flips[..|flips| - 1], id) + if o.fence.id == id then [o.inside] else []
  }

  lemma {:induction false} ObserveFlipsOnce(mem: map<string, bool>, obs: seq<Observation>, id: string)
    requires UniqueObs(obs)
    ensures FlipsOf(Observe(mem, obs).1, id)
         == match LastSeen(obs, id) case None => [] case Some(b) => if b == Member(mem, id) then [] else [b]
  {
    if obs != [] {
      var front, o := obs[..|obs| - 1], obs[|obs| - 1];
      ObserveFlipsOnce(mem, front, id);
      ObserveRemembersLast(mem, front, id);
      if o.fence.id == id { NotSeen(front, id); }
      var r := Observe(mem, front);
      Prefixed(r.1, o);
      Unchanged(FlipsOf(r.1, id));
    }
  }

  /** With unique ids a fence is entered once, exited once, or neither, as the position and the membership from before
      the point say. */
  lemma FlipsOnce(members: Members, fences: seq<Geofence>, t: Telemetry, g: Geofence)
    requires UniqueIds(fences) && g in fences
    ensures var inside, was := Inside(g.polygon, PositionOf(t)), Member(MemberOf(members, t.vehicleId), g.id);
      FlipsOf(EvaluateSpec(members, fences, t).1, g.id) == if inside == was then [] else [inside]
  {
    var p, mem := PositionOf(t), MemberOf(members, t.vehicleId);
    UniqueObservations(fences, p);
    ObserveFlipsOnce(mem, Observations(fences, p), g.id);
    ObserveRemembersLast(mem, Observations(fences, p), g.id);
    EvaluateIsNaive(members, fences, t);
  }

  /** Two fences under one id, both with enough points for the registry: the vehicle is inside one of them and still not
      a member, because it is outside the box of the other. */
  lemma RepeatedIdsLoseMembership()
    ensures exists fences: seq<Geofence>, t: Telemetry, g ::
      && (forall h :: h in fences ==> h.id != "" && h.tenantId != "" && |h.polygon| >= 3)
      && g in fences && Inside(g.polygon, PositionOf(t))
      && !Member(MemberOf(EvaluateSpec(map[], fences, t).0, t.vehicleId), g.id)
  {
    var square := [Point(0.0, 0.0), Point(0.0, 2.0), Point(2.0, 2.0), Point(2.0, 0.0)];
    var far := [Point(50.0, 50.0), Point(50.0, 52.0), Point(52.0, 50.0)];
    var g, h := Geofence("x", "t", "a", square), Geofence("x", "t", "b", far);
    var t := Telemetry("1", "t", "v", "d", 1, 1, Location(1.0, 1.0), None, None, None, None, Some("r"),
                       Source("p", "d"), Metadata("c", 1, None));
    SquareHoldsCentre(square, PositionOf(t));
    MembershipAfter(map[], [g, h], t, "x");
    assert !InBox(far, PositionOf(t)) by { assert forall v :: v in far ==> v.lat >= 50.0; }
    assert LastFence([g, h], "x") == Some(h);
    assert g in [g, h] && h in [g, h] && Inside(g.polygon, PositionOf(t));
  }

  // ---------------------------------------------------------------- every run

  datatype Op = Evaluate(t: Telemetry) | SetFences(fences: seq<Geofence>)

  datatype Flip = Flip(vehicleId: string, observation: Observation)

  function Tag(vehicleId: string, flips: seq<Observation>): (fs: seq<Flip>) {
    if flips == [] then [] else Tag(vehicleId, flips[..|flips| - 1]) + [Flip(vehicleId, flips[|flips| - 1])]
  }

  datatype TrackerState = TrackerState(fences: seq<Geofence>, members: Members)

  /** A run from a fresh tracker, with every flip it emitted. */
  ghost function Run(initial: seq<Geofence>, ops: seq<Op>): (TrackerState, seq<Flip>) {
    if ops == [] then (TrackerState(initial, map[]), [])
    else
      var (s, flips) := Run(initial, ops[..|ops| - 1]);
      match ops[|ops| - 1]
      case SetFences(fences) => (s.(fences := fences), flips)
      case Evaluate(t) =>
        var (members, more) := EvaluateSpec(s.members, s.fences, t);
        (s.(members := members), flips + Tag(t.vehicleId, more))
  }

  /** The entered (true) and exited (false) events of one vehicle at one fence id. */
  function History(flips: seq<Flip>, vehicleId: string, id: string): (h: seq<bool>) {
    if flips == [] then []
    else
      var f := flips[|flips| - 1];
      History(flips[..|flips| - 1], vehicleId, id) +
      if f.vehicleId == vehicleId && f.observation.fence.id == id then [f.observation.inside] else []
  }

  lemma AlternatesNext(h: seq<bool>, inside: bool)
    requires Alternates(h, inside)
    ensures Alternates(h + [!inside], !inside)
  {
  }

  /** Strict alternation that starts with entered; `inside` is where it ends. */
  ghost predicate Alternates(h: seq<bool>, inside: bool) {
    && (forall k :: 0 <= k < |h| ==> h[k] == (k % 2 == 0))
    && inside == (|h| % 2 == 1)
  }

  lemma HistoryNext(flips: seq<Flip>, f: Flip, vehicleId: string, id: string)
    ensures History(flips + [f], vehicleId, id)
         == History(flips, vehicleId, id) + if f.vehicleId == vehicleId && f.observation.fence.id == id
                                            then [f.observation.inside] else []
  {
    Prefixed(flips, f);
  }

  lemma TagNext(flips: seq<Flip>, vehicleId: string, more: seq<Observation>, o: Observation)
    ensures flips + Tag(vehicleId, more + [o]) == (flips + Tag(vehicleId, more)) + [Flip(vehicleId, o)]
  {
    Prefixed(more, o);
  }

  lemma {:induction false} ObserveAlternates(
    flips: seq<Flip>, vehicleId: string, mem: map<string, bool>, obs: seq<Observation>, id: string)
    requires Alternates(History(flips, vehicleId, id), Member(mem, id))
    ensures Alternates(History(flips + Tag(vehicleId, Observe(mem, obs).1), vehicleId, id), Member(Observe(mem, obs).0, id))
  {
    if obs == [] {
      assert flips + Tag(vehicleId, []) == flips;
    } else {
      var n := |obs| - 1;
      ObserveAlternates(flips, vehicleId, mem, obs[..n], id);
      var r := Observe(mem, obs[..n]);
      if obs[n].inside != Member(r.0, obs[n].fence.id) {
        FlipAlternates(flips, vehicleId, r.0, r.1, obs[n], id);
      }
    }
  }

  lemma FlipAlternates(flips: seq<Flip>, vehicleId: string, mem: map<string, bool>, more: seq<Observation>,
                       o: Observation, id: string)
    requires Alternates(History(flips + Tag(vehicleId, more), vehicleId, id), Member(mem, id))
    requires o.inside != Member(mem, o.fence.id)
    ensures Alternates(History(flips + Tag(vehicleId, more + [o]), vehicleId, id), Member(mem[o.fence.id := o.inside], id))
  {
    var before := flips + Tag(vehicleId, more);
    TagNext(flips, vehicleId, more, o);
    HistoryNext(before, Flip(vehicleId, o), vehicleId, id);
    AlternatesNext(History(before, vehicleId, id), Member(mem, id));
  }

  lemma {:induction false} OtherVehicleHistory(flips: seq<Flip>, u: string, more: seq<Observation>, v: string, id: string)
    requires u != v
    ensures History(flips + Tag(u, more), v, id) == History(flips, v, id)
  {
    if more == [] {
      assert flips + Tag(u, more) == flips;
    } else {
      var n := |more| - 1;
      OtherVehicleHistory(flips, u, more[..n], v, id);
      assert more[..n] + [more[n]] == more;
      TagNext(flips, u, more[..n], more[n]);
      HistoryNext(flips + Tag(u, more[..n]), Flip(u, more[n]), v, id);
    }
  }

  /** Exactly-one semantics over every run, with fence lists replaced at will and ids repeated at will:
      for each vehicle and fence id, entered and exited strictly alternate, entered first, and membership
      tells which came last. */
  lemma {:induction false} EnterExitAlternate(initial: seq<Geofence>, ops: seq<Op>, vehicleId: string, id: string)
    ensures var (s, flips) := Run(initial, ops);
      Alternates(History(flips, vehicleId, id), Member(MemberOf(s.members, vehicleId), id))
  {
    if ops != [] {
      var n := |ops| - 1;
      EnterExitAlternate(initial, ops[..n], vehicleId, id);
      var (s, flips) := Run(initial, ops[..n]);
      match ops[n]
      case SetFences(_) =>
      case Evaluate(t) =>
        var obs := Observations(s.fences, PositionOf(t));
        if t.vehicleId == vehicleId {
          ObserveAlternates(flips, vehicleId, MemberOf(s.members, vehicleId), obs, id);
        } else {
          OtherVehicleHistory(flips, t.vehicleId, EvaluateSpec(s.members, s.fences, t).1, vehicleId, id);
        }
    }
  }
}
