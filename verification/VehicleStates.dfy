/**
 The state engine: a hysteresis machine over motion with a watermark, presence
 kept by fresh data and an offline sweep. The wall-clock field UpdatedAt is not
 part of the state.
 */
module VehicleStates {
  import opened Collections
  import opened Schemas

  datatype Motion = Unset | Unknown | Moving | Idle | Stopped
  datatype Presence = NoPresence | Online | Offline

  const MOVING_THRESHOLD := 5.0
  const STOPPED_THRESHOLD := 3.0
  const DEFAULT_CADENCE_SECS := 300
  const OFFLINE_MULTIPLIER := 3

  datatype VehicleState = VehicleState(
    tenantId: string, vehicleId: string, motion: Motion, presence: Presence,
    ignition: Option<bool>, speedKmh: Option<real>, lat: real, lng: real, lastSeen: int,
    tripId: string, geofences: seq<string>)

  const EMPTY := VehicleState("", "", Unset, NoPresence, None, None, 0.0, 0.0, 0, "", [])

  datatype Transition =
    | MotionChange(from: Motion, to: Motion, at: int)
    | IgnitionChange(was: Option<bool>, on: bool, at: int)
    | PresenceChange(online: bool, at: int)

  function Classify(prev: Motion, t: Telemetry): (m: Motion)
    ensures m != Unset
  {
    if t.speedKmh.None? then
      if prev == Unset then Unknown else prev
    else
      var s := t.speedKmh.value;
      if prev == Moving && s >= STOPPED_THRESHOLD then Moving
      else if s > MOVING_THRESHOLD then Moving
      else if s < STOPPED_THRESHOLD then
        if t.ignition == Some(true) then Idle else Stopped
      else if t.ignition.Some? then
        if t.ignition.value then Idle else Stopped
      else if prev == Unset then Unknown else prev
  }

  /** The hysteresis, state by state: moving is entered above 5 and left below 3; below 3 the ignition tells idle from
      stopped; inside the band a vehicle that does not move follows the ignition, else keeps what it was. */
  lemma MotionMeaning(prev: Motion, t: Telemetry)
    ensures var m, was := Classify(prev, t), if prev == Unset then Unknown else prev;
      && (m == Moving <==>
            if t.speedKmh.None? then was == Moving
            else t.speedKmh.value > 5.0 || (was == Moving && t.speedKmh.value >= 3.0))
      && (t.speedKmh.None? ==> m == was)
      && (t.speedKmh.Some? && m != Moving ==>
            match t.ignition
            case Some(on) => m == if on then Idle else Stopped
            case None => m == if t.speedKmh.value < 3.0 then Stopped else was)
  {
  }

  predicate Late(prev: VehicleState, t: Telemetry) {
    prev.lastSeen != 0 && t.timestamp < prev.lastSeen
  }

  /** Fold one point into the state; a late point only rewrites the identity fields. */
  function Apply(prev: VehicleState, t: Telemetry): (r: (VehicleState, seq<Transition>))
    ensures !Late(prev, t) ==>
      && r.0.lastSeen == t.timestamp && r.0.lat == t.location.lat && r.0.lng == t.location.lng
      && r.0.speedKmh == t.speedKmh && r.0.presence == Online
      && r.0.motion == Classify(prev.motion, t)
      && r.0.ignition == (if t.ignition.Some? then t.ignition else prev.ignition)
    ensures r.0.tenantId == t.tenantId && r.0.vehicleId == t.vehicleId
    ensures Late(prev, t) && prev.motion != Unset && prev.presence != NoPresence ==>
      r == (prev.(tenantId := t.tenantId, vehicleId := t.vehicleId), [])
  {
    var base := prev.(motion := if prev.motion == Unset then Unknown else prev.motion,
                      presence := if prev.presence == NoPresence then Online else prev.presence,
                      tenantId := t.tenantId, vehicleId := t.vehicleId);
    if Late(prev, t) then (base, [])
    else
      var m := Classify(prev.motion, t);
      var motionOut := if m != prev.motion then [MotionChange(prev.motion, m, t.timestamp)] else [];
      var moved := if m != prev.motion then base.(motion := m) else base;
      var ignitionOut :=
        if t.ignition.Some? && t.ignition != prev.ignition
        then [IgnitionChange(prev.ignition, t.ignition.value, t.timestamp)] else [];
      var presenceOut := if prev.presence == Offline then [PresenceChange(true, t.timestamp)] else [];
      (moved.(lat := t.location.lat, lng := t.location.lng, speedKmh := t.speedKmh,
              ignition := if t.ignition.Some? then t.ignition else prev.ignition,
              lastSeen := t.timestamp, presence := Online),
       motionOut + ignitionOut + presenceOut)
  }

  /** The transitions of a point are exactly the differences it makes to motion, ignition and an offline presence. */
  lemma TransitionsAreDifferences(prev: VehicleState, t: Telemetry, tr: Transition)
    ensures var (next, out) := Apply(prev, t);
      tr in out <==>
        && !Late(prev, t) && tr.at == t.timestamp
        && match tr
           case MotionChange(from, to, _) => from == prev.motion && to == next.motion && from != to
           case IgnitionChange(was, on, _) => was == prev.ignition && Some(on) == next.ignition && was != next.ignition
           case PresenceChange(online, _) => online && prev.presence == Offline && next.presence == Online
  {
    var m := Classify(prev.motion, t);
    var motionOut := if m != prev.motion then [MotionChange(prev.motion, m, t.timestamp)] else [];
    var ignitionOut :=
      if t.ignition.Some? && t.ignition != prev.ignition
      then [IgnitionChange(prev.ignition, t.ignition.value, t.timestamp)] else [];
    var presenceOut := if prev.presence == Offline then [PresenceChange(true, t.timestamp)] else [];
    if !Late(prev, t) {
      assert Apply(prev, t).1 == motionOut + ignitionOut + presenceOut;
    }
  }

  /** Silence longer than three times the device's own cadence means offline. */
  function CheckOffline(s: VehicleState, cadenceSecs: int, now: int): (r: (VehicleState, Option<Transition>))
    ensures r.0 == if r.1.Some? then s.(presence := Offline) else s
    ensures r.1.Some? <==>
      && s.lastSeen != 0 && s.presence != Offline
      && now > s.lastSeen + (if cadenceSecs <= 0 then 900 * SECOND else 3 * cadenceSecs * SECOND)
    ensures r.1.Some? ==> r.1 == Some(PresenceChange(false, now))
  {
    var cadence := if cadenceSecs <= 0 then DEFAULT_CADENCE_SECS else cadenceSecs;
    if s.lastSeen == 0 || s.presence == Offline then (s, None)
    else if now - s.lastSeen > cadence * OFFLINE_MULTIPLIER * SECOND then
      (s.(presence := Offline), Some(PresenceChange(false, now)))
    else (s, None)
  }

  // ---------------------------------------------------------------- runs with sweeps

  datatype Step = Point(t: Telemetry) | Sweep(cadenceSecs: int, now: int)

  /** One vehicle's history of points and sweeps, from the empty state. */
  function Run(steps: seq<Step>): (r: (VehicleState, seq<Transition>)) {
    if steps == [] then (EMPTY, [])
    else
      var (s, out) := Run(steps[..|steps| - 1]);
      match steps[|steps| - 1]
      case Point(t) =>
        var (s', more) := Apply(s, t);
        (s', out + more)
      case Sweep(cadence, now) =>
        var (s', tr) := CheckOffline(s, cadence, now);
        (s', if tr.Some? then out + [tr.value] else out)
  }

  /** The state after one more step. */
  function Next(s: VehicleState, step: Step): VehicleState {
    match step
    case Point(t) => Apply(s, t).0
    case Sweep(cadence, now) => CheckOffline(s, cadence, now).0
  }

  ghost predicate PointTimesSet(steps: seq<Step>) {
    forall k :: 0 <= k < |steps| && steps[k].Point? ==> steps[k].t.timestamp != 0
  }

  /** `time` is the greatest event time among the points of a run, 0 when there is none. */
  ghost predicate IsGreatestTime(steps: seq<Step>, time: int) {
    && (time == 0 ==> forall k :: 0 <= k < |steps| ==> !steps[k].Point?)
    && (time != 0 ==> exists k :: 0 <= k < |steps| && steps[k].Point? && steps[k].t.timestamp == time)
    && (forall k :: 0 <= k < |steps| && steps[k].Point? ==> steps[k].t.timestamp <= time)
  }

  lemma GreatestTimeNext(front: seq<Step>, step: Step, time: int)
    requires IsGreatestTime(front, time) && (step.Point? ==> step.t.timestamp != 0)
    ensures IsGreatestTime(front + [step], if step.Point? && (time == 0 || step.t.timestamp >= time) then step.t.timestamp else time)
  {
    var steps := front + [step];
    assert steps[|front|] == step;
    if time != 0 {
      var k :| 0 <= k < |front| && front[k].Point? && front[k].t.timestamp == time;
      assert steps[k] == front[k];
    }
    assert forall k :: 0 <= k < |front| ==> steps[k] == front[k];
  }

  /** Over every interleaving of points and sweeps the watermark is the greatest event time applied. */
  lemma {:induction false} LastSeenIsMaximum(steps: seq<Step>)
    requires PointTimesSet(steps)
    ensures IsGreatestTime(steps, Run(steps).0.lastSeen)
  {
    if steps != [] {
      var n := |steps| - 1;
      LastSeenIsMaximum(steps[..n]);
      GreatestTimeNext(steps[..n], steps[n], Run(steps[..n]).0.lastSeen);
      assert steps == steps[..n] + [steps[n]];
    }
  }

  /** Motion changes linked end to end from the unset motion to `to`, no change to the same motion. */
  ghost predicate MotionChain(out: seq<Transition>, to: Motion)
    decreases |out|
  {
    if out == [] then to == Unset
    else
      var n := |out| - 1;
      if out[n].MotionChange? then
        out[n].to == to && out[n].from != to && MotionChain(out[..n], out[n].from)
      else MotionChain(out[..n], to)
  }

  lemma {:induction false} MotionChainExtend(out: seq<Transition>, more: seq<Transition>, to: Motion)
    requires MotionChain(out, to)
    requires forall tr :: tr in more ==> !tr.MotionChange?
    ensures MotionChain(out + more, to)
  {
    if more == [] {
      assert out + more == out;
    } else {
      var n := |more| - 1;
      MotionChainExtend(out, more[..n], to);
      assert (out + more)[..|out + more| - 1] == out + more[..n];
    }
  }

  lemma MotionOfApply(out: seq<Transition>, s: VehicleState, t: Telemetry)
    requires MotionChain(out, s.motion) && !Late(s, t)
    ensures MotionChain(out + Apply(s, t).1, Apply(s, t).0.motion)
  {
    var m, more := Classify(s.motion, t), Apply(s, t).1;
    if m != s.motion {
      var head := [MotionChange(s.motion, m, t.timestamp)];
      assert more[0] == head[0];
      assert (out + head)[..|out|] == out;
      MotionChainExtend(out + head, more[1..], m);
      assert out + more == (out + head) + more[1..];
    } else {
      MotionChainExtend(out, more, m);
    }
  }

  /** Over every interleaving the motion transitions form one chain without self-steps that ends at the current motion. */
  lemma {:induction false} MotionTransitionsChain(steps: seq<Step>)
    ensures MotionChain(Run(steps).1, Run(steps).0.motion)
    ensures Run(steps).0.motion == Unset ==> Run(steps).0.lastSeen == 0
  {
    if steps != [] {
      var n := |steps| - 1;
      MotionTransitionsChain(steps[..n]);
      var r := Run(steps[..n]);
      match steps[n]
      case Point(t) =>
        if Late(r.0, t) {
          assert r.1 + Apply(r.0, t).1 == r.1;
        } else {
          MotionOfApply(r.1, r.0, t);
        }
      case Sweep(cadence, now) =>
        var tr := CheckOffline(r.0, cadence, now).1;
        if tr.Some? { MotionChainExtend(r.1, [tr.value], r.0.motion); }
    }
  }

  /** The presence transitions of a trace: true is back online. */
  function PresenceOf(out: seq<Transition>): (h: seq<bool>) {
    if out == [] then []
    else
      var n := |out| - 1;
      PresenceOf(out[..n]) + if out[n].PresenceChange? then [out[n].online] else []
  }

  lemma {:induction false} PresenceConcat(a: seq<Transition>, b: seq<Transition>)
    ensures PresenceOf(a + b) == PresenceOf(a) + PresenceOf(b)
  {
    if b == [] {
      assert a + b == a;
    } else {
      PresenceConcat(a, b[..|b| - 1]);
      assert (a + b)[..|a + b| - 1] == a + b[..|b| - 1];
    }
  }

  lemma PresenceOfApply(s: VehicleState, t: Telemetry)
    ensures PresenceOf(Apply(s, t).1) == if !Late(s, t) && s.presence == Offline then [true] else []
  {
    if !Late(s, t) {
      var m := Classify(s.motion, t);
      var motionOut := if m != s.motion then [MotionChange(s.motion, m, t.timestamp)] else [];
      var ignitionOut :=
        if t.ignition.Some? && t.ignition != s.ignition
        then [IgnitionChange(s.ignition, t.ignition.value, t.timestamp)] else [];
      var presenceOut := if s.presence == Offline then [PresenceChange(true, t.timestamp)] else [];
      PresenceConcat(motionOut + ignitionOut, presenceOut);
      PresenceConcat(motionOut, ignitionOut);
      assert PresenceOf([]) == [];
      assert PresenceOf(motionOut) == [] by { if motionOut != [] { assert motionOut[..0] == []; } }
      assert PresenceOf(ignitionOut) == [] by { if ignitionOut != [] { assert ignitionOut[..0] == []; } }
      assert PresenceOf(presenceOut) == if s.presence == Offline then [true] else [] by {
        if presenceOut != [] { assert presenceOut[..0] == []; }
      }
    }
  }

  /** Strict alternation that starts with offline; `offline` is where it ends. */
  ghost predicate Alternating(h: seq<bool>, offline: bool) {
    && (forall k :: 0 <= k < |h| ==> h[k] == (k % 2 == 1))
    && offline == (|h| % 2 == 1)
  }

  lemma AlternatingNext(h: seq<bool>, offline: bool)
    requires Alternating(h, offline)
    ensures Alternating(h + [offline], !offline)
  {
  }

  /** Over every interleaving presence strictly alternates, offline first, and the last transition is the current presence. */
  lemma {:induction false} PresenceAlternates(steps: seq<Step>)
    ensures Alternating(PresenceOf(Run(steps).1), Run(steps).0.presence == Offline)
  {
    if steps != [] {
      var n := |steps| - 1;
      PresenceAlternates(steps[..n]);
      var r := Run(steps[..n]);
      AlternatingNext(PresenceOf(r.1), r.0.presence == Offline);
      match steps[n]
      case Point(t) =>
        PresenceConcat(r.1, Apply(r.0, t).1);
        PresenceOfApply(r.0, t);
      case Sweep(cadence, now) =>
        var tr := CheckOffline(r.0, cadence, now).1;
        if tr.Some? {
          assert (r.1 + [tr.value])[..|r.1|] == r.1;
        }
    }
  }

  /** Ignition changes linked end to end from the unknown ignition to `to`, no change to the same setting. */
  ghost predicate IgnitionChain(out: seq<Transition>, to: Option<bool>)
    decreases |out|
  {
    if out == [] then to == None
    else
      var n := |out| - 1;
      if out[n].IgnitionChange? then
        to == Some(out[n].on) && out[n].was != to && IgnitionChain(out[..n], out[n].was)
      else IgnitionChain(out[..n], to)
  }

  lemma {:induction false} IgnitionChainExtend(out: seq<Transition>, more: seq<Transition>, to: Option<bool>)
    requires IgnitionChain(out, to)
    requires forall tr :: tr in more ==> !tr.IgnitionChange?
    ensures IgnitionChain(out + more, to)
  {
    if more == [] {
      assert out + more == out;
    } else {
      var n := |more| - 1;
      IgnitionChainExtend(out, more[..n], to);
      assert (out + more)[..|out + more| - 1] == out + more[..n];
    }
  }

  lemma IgnitionChainStep(out: seq<Transition>, head: seq<Transition>, was: Option<bool>, on: bool, at: int, tail: seq<Transition>)
    requires IgnitionChain(out, was) && was != Some(on)
    requires (forall tr :: tr in head ==> !tr.IgnitionChange?) && (forall tr :: tr in tail ==> !tr.IgnitionChange?)
    ensures IgnitionChain(out + (head + [IgnitionChange(was, on, at)] + tail), Some(on))
  {
    IgnitionChainExtend(out, head, was);
    var mid := out + head + [IgnitionChange(was, on, at)];
    assert mid[..|out + head|] == out + head;
    IgnitionChainExtend(mid, tail, Some(on));
    assert out + (head + [IgnitionChange(was, on, at)] + tail) == mid + tail;
  }

  lemma IgnitionOfApply(out: seq<Transition>, s: VehicleState, t: Telemetry)
    requires IgnitionChain(out, s.ignition) && !Late(s, t)
    ensures IgnitionChain(out + Apply(s, t).1, Apply(s, t).0.ignition)
  {
    var m := Classify(s.motion, t);
    var head := if m != s.motion then [MotionChange(s.motion, m, t.timestamp)] else [];
    var tail := if s.presence == Offline then [PresenceChange(true, t.timestamp)] else [];
    if t.ignition.Some? && t.ignition != s.ignition {
      IgnitionChainStep(out, head, s.ignition, t.ignition.value, t.timestamp, tail);
      assert Apply(s, t).1 == head + [IgnitionChange(s.ignition, t.ignition.value, t.timestamp)] + tail;
    } else {
      IgnitionChainExtend(out, head + tail, s.ignition);
      assert Apply(s, t).1 == head + tail;
    }
  }

  /** The ignition last reported by an on-time point. */
  ghost function LastIgnition(steps: seq<Step>): (on: Option<bool>) {
    if steps == [] then None
    else
      var n := |steps| - 1;
      if steps[n].Point? && steps[n].t.ignition.Some? && !Late(Run(steps[..n]).0, steps[n].t)
      then steps[n].t.ignition else LastIgnition(steps[..n])
  }

  /** Over every interleaving ignition transitions form one chain that ends at the current ignition, which is the one
      last reported by an on-time point. */
  lemma {:induction false} IgnitionTransitionsChain(steps: seq<Step>)
    ensures IgnitionChain(Run(steps).1, Run(steps).0.ignition)
    ensures Run(steps).0.ignition == LastIgnition(steps)
  {
    if steps != [] {
      var n := |steps| - 1;
      IgnitionTransitionsChain(steps[..n]);
      var r := Run(steps[..n]);
      match steps[n]
      case Point(t) =>
        if Late(r.0, t) {
          assert r.1 + Apply(r.0, t).1 == r.1;
        } else {
          IgnitionOfApply(r.1, r.0, t);
        }
      case Sweep(cadence, now) =>
        var tr := CheckOffline(r.0, cadence, now).1;
        if tr.Some? { IgnitionChainExtend(r.1, [tr.value], r.0.ignition); }
    }
  }

  ghost predicate EntersMoving(steps: seq<Step>, k: nat)
    requires k < |steps|
  {
    Run(steps[..k]).0.motion != Moving && Run(steps[..k + 1]).0.motion == Moving
  }

  ghost predicate OnTime(steps: seq<Step>, k: nat)
    requires k < |steps|
  {
    steps[k].Point? && !Late(Run(steps[..k]).0, steps[k].t)
  }

  lemma RunNext(steps: seq<Step>, k: nat)
    requires k < |steps|
    ensures Run(steps[..k + 1]).0 == Next(Run(steps[..k]).0, steps[k])
  {
    NextPrefix(steps, k);
  }

  /** The step at which a vehicle that moves at `i` and does not at `j` stopped moving. */
  lemma {:induction false} LeavesMoving(steps: seq<Step>, i: nat, j: nat) returns (k: nat)
    requires i <= j <= |steps|
    requires Run(steps[..i]).0.motion == Moving && Run(steps[..j]).0.motion != Moving
    ensures i <= k < j && OnTime(steps, k)
    ensures steps[k].t.speedKmh.Some? && steps[k].t.speedKmh.value < STOPPED_THRESHOLD
    decreases j - i
  {
    RunNext(steps, i);
    if Run(steps[..i + 1]).0.motion == Moving {
      k := LeavesMoving(steps, i + 1, j);
    } else {
      k := i;
    }
  }

  /** No flapping: between two entries into moving there is an on-time point below 3 km/h, and the second
      entry is itself an on-time point above 5 km/h. */
  lemma NoFlapping(steps: seq<Step>, i: nat, j: nat)
    requires i < j < |steps|
    requires EntersMoving(steps, i) && EntersMoving(steps, j)
    ensures exists k :: i < k < j && OnTime(steps, k)
                     && steps[k].t.speedKmh.Some? && steps[k].t.speedKmh.value < STOPPED_THRESHOLD
    ensures OnTime(steps, j) && steps[j].t.speedKmh.Some? && steps[j].t.speedKmh.value > MOVING_THRESHOLD
  {
    var k := LeavesMoving(steps, i + 1, j);
    RunNext(steps, j);
  }

  // ---------------------------------------------------------------- silence

  /** A sweep that finds the vehicle silent for more than three cadences. */
  ghost predicate FindsSilence(steps: seq<Step>, k: nat)
    requires k < |steps|
  {
    && steps[k].Sweep? && Run(steps[..k]).0.lastSeen != 0
    && steps[k].now > Run(steps[..k]).0.lastSeen + (if steps[k].cadenceSecs <= 0 then 900 * SECOND else 3 * steps[k].cadenceSecs * SECOND)
  }

  /** Among the first `n` steps a sweep found silence, and no on-time point came after it. */
  ghost predicate Silent(steps: seq<Step>, n: nat)
    requires n <= |steps|
  {
    exists k :: 0 <= k < n && FindsSilence(steps, k) && forall j :: k < j < n ==> !OnTime(steps, j)
  }

  lemma SilentNext(steps: seq<Step>, n: nat)
    requires n < |steps|
    ensures Silent(steps, n + 1) <==> FindsSilence(steps, n) || (Silent(steps, n) && !OnTime(steps, n))
  {
    if Silent(steps, n) && !OnTime(steps, n) {
      var k :| 0 <= k < n && FindsSilence(steps, k) && forall j :: k < j < n ==> !OnTime(steps, j);
      assert forall j :: k < j < n + 1 ==> !OnTime(steps, j);
    }
  }

  /** A vehicle is offline exactly when a sweep found it silent and no on-time point has come since. */
  lemma {:induction false} OfflineIff(steps: seq<Step>, n: nat)
    requires n <= |steps|
    ensures Run(steps[..n]).0.presence == Offline <==> Silent(steps, n)
    ensures Run(steps[..n]).0.lastSeen != 0 ==> Run(steps[..n]).0.presence != NoPresence
  {
    if n > 0 {
      OfflineIff(steps, n - 1);
      RunNext(steps, n - 1);
      SilentNext(steps, n - 1);
    }
  }
}
