/** What the dedup key identifies: sequence first, else event time and payload digest. */
module Identity {
  import opened Collections
  import opened Schemas
  import opened Pipeline
  import opened PipelineRuns
  import Detectors

  // ---------------------------------------------------------------- numbers as text

  predicate Plain(s: string) {
    '|' !in s && ':' !in s
  }

  lemma {:induction false} NaturalShape(n: nat)
    ensures Decimal(n) != "" && forall c :: c in Decimal(n) ==> '0' <= c <= '9'
  {
    assert '0' <= "0123456789"[n % 10] <= '9';
    if n >= 10 { NaturalShape(n / 10); }
  }

  lemma DecimalShape(n: int)
    ensures Decimal(n) != "" && Plain(Decimal(n))
    ensures Decimal(n)[0] == '-' <==> n < 0
  {
    NaturalShape(if n < 0 then -n else n);
    assert n >= 0 ==> Decimal(n)[0] in Decimal(n);
  }

  lemma {:induction false} NaturalReads(n: nat)
    ensures Parse(Decimal(n)) == n
  {
    assert Digit("0123456789"[n % 10]) == n % 10;
    if n < 10 {
      Prefixed("", "0123456789"[n]);
    } else {
      NaturalReads(n / 10);
      Prefixed(Decimal(n / 10), "0123456789"[n % 10]);
    }
  }

  /** The number that a decimal text stands for, with or without a sign. */
  function Read(s: string): int {
    if s != "" && s[0] == '-' then -Parse(s[1..]) else Parse(s)
  }

  /** Decimal text reads back as the number it writes, negative or not. */
  lemma DecimalReads(n: int)
    ensures Read(Decimal(n)) == n
  {
    DecimalShape(n);
    NaturalReads(if n < 0 then -n else n);
    if n < 0 { assert Decimal(n)[1..] == Decimal(-n); }
  }

  lemma DecimalInjective(n: int, m: int)
    requires Decimal(n) == Decimal(m)
    ensures n == m
  {
    DecimalReads(n);
    DecimalReads(m);
  }

  // ---------------------------------------------------------------- identity

  /** The payload is there and its digest is hexadecimal text. */
  predicate Digested(t: Telemetry) {
    t.raw.Some? && Plain(t.raw.value)
  }

  /** The same provider, device and sequence; without a sequence, the same event time and payload digest. */
  predicate SameIdentity(a: Telemetry, b: Telemetry) {
    && a.source == b.source && a.metadata.sequence == b.metadata.sequence
    && (a.metadata.sequence.None? ==> a.timestamp == b.timestamp && a.raw == b.raw)
  }

  function Sender(t: Telemetry): string {
    t.source.provider + "|" + t.source.deviceId
  }

  function SequenceText(t: Telemetry): string
    requires t.metadata.sequence.Some?
  {
    "seq:" + Decimal(t.metadata.sequence.value)
  }

  /** The key up to its last bar, and what comes after it. */
  function Split(t: Telemetry): (parts: (string, string))
    requires Digested(t)
    ensures DedupKey(t) == parts.0 + "|" + parts.1 && '|' !in parts.1
    ensures ':' in parts.1 <==> t.metadata.sequence.Some?
  {
    if t.metadata.sequence.Some? then
      DecimalShape(t.metadata.sequence.value);
      assert SequenceText(t)[3] == ':';
      (Sender(t), SequenceText(t))
    else
      assert Sender(t) + "|" + (Decimal(t.timestamp) + "|" + t.raw.value)
          == Sender(t) + "|" + Decimal(t.timestamp) + "|" + t.raw.value;
      (Sender(t) + "|" + Decimal(t.timestamp), t.raw.value)
  }

  lemma SameSender(a: Telemetry, b: Telemetry)
    requires '|' !in a.source.provider && '|' !in b.source.provider && Sender(a) == Sender(b)
    ensures a.source == b.source
  {
    CutFirst(a.source.provider, a.source.deviceId, b.source.provider, b.source.deviceId, '|');
  }

  /** Among providers without a bar in their name, two points share a key exactly when they have the same identity. */
  lemma KeysIdentify(a: Telemetry, b: Telemetry)
    requires Digested(a) && Digested(b)
    requires '|' !in a.source.provider && '|' !in b.source.provider
    ensures DedupKey(a) == DedupKey(b) <==> SameIdentity(a, b)
  {
    if DedupKey(a) == DedupKey(b) {
      CutLast(Split(a).0, Split(a).1, Split(b).0, Split(b).1, '|');
      if a.metadata.sequence.Some? {
        SameSender(a, b);
        assert SequenceText(a)[4..] == SequenceText(b)[4..];
        DecimalInjective(a.metadata.sequence.value, b.metadata.sequence.value);
      } else {
        DecimalShape(a.timestamp);
        DecimalShape(b.timestamp);
        CutLast(Sender(a), Decimal(a.timestamp), Sender(b), Decimal(b.timestamp), '|');
        SameSender(a, b);
        DecimalInjective(a.timestamp, b.timestamp);
      }
    }
  }

  /** The bar is not escaped: a provider with a bar in its name shares every key with a device of another provider. */
  lemma BarredProvidersCollide(t: Telemetry) returns (other: Telemetry)
    requires '|' in t.source.provider
    ensures other.source.provider != t.source.provider && '|' !in other.source.provider
    ensures other == t.(source := other.source) && DedupKey(other) == DedupKey(t)
  {
    var p := t.source.provider;
    var i := FirstBar(p);
    other := t.(source := Source(p[..i], p[i + 1..] + "|" + t.source.deviceId));
    assert p == p[..i] + "|" + p[i + 1..];
    assert Sender(other) == Sender(t);
  }

  lemma FirstBar(p: string) returns (i: nat)
    requires '|' in p
    ensures i < |p| && p[i] == '|' && '|' !in p[..i]
  {
    i := 0;
    while p[i] != '|'
      invariant i < |p| && '|' !in p[..i] && '|' in p[i..]
      decreases |p| - i
    {
      NextPrefix(p, i);
      assert p[i..] == [p[i]] + p[i + 1..];
      i := i + 1;
    }
  }

  /** Different vehicles report from different devices. */
  ghost predicate DevicesApart(xs: seq<Arrival>) {
    && (forall i :: 0 <= i < |xs| ==> Digested(xs[i].t) && '|' !in xs[i].t.source.provider)
    && (forall i, j :: 0 <= i < |xs| && 0 <= j < |xs| && xs[i].t.vehicleId != xs[j].t.vehicleId ==>
          xs[i].t.source != xs[j].t.source)
  }

  /** Vehicles with devices of their own never absorb each other's points. */
  lemma DevicesKeepKeysApart(xs: seq<Arrival>)
    requires DevicesApart(xs)
    ensures KeysApart(xs)
  {
    forall i, j | 0 <= i < |xs| && 0 <= j < |xs| && xs[i].t.vehicleId != xs[j].t.vehicleId
      ensures DedupKey(xs[i].t) != DedupKey(xs[j].t)
    {
      KeysIdentify(xs[i].t, xs[j].t);
    }
  }

  // ---------------------------------------------------------------- event ids

  /** Events of the same type, vehicle, event time and cause share an id, and no others do, as long as types and causes
      hold no colon. */
  lemma EventIdsIdentify(kind: string, v: string, time: int, cause: string, kind': string, v': string, time': int, cause': string)
    requires ':' !in kind && ':' !in kind' && ':' !in cause && ':' !in cause'
    ensures DeterministicId(kind, v, time, cause) == DeterministicId(kind', v', time', cause')
       <==> kind == kind' && v == v' && time == time' && cause == cause'
  {
    if DeterministicId(kind, v, time, cause) == DeterministicId(kind', v', time', cause') {
      DecimalShape(time);
      DecimalShape(time');
      CutLast(kind + ":" + v + ":" + Decimal(time), cause, kind' + ":" + v' + ":" + Decimal(time'), cause', ':');
      CutLast(kind + ":" + v, Decimal(time), kind' + ":" + v', Decimal(time'), ':');
      CutFirst(kind, v, kind', v', ':');
      DecimalInjective(time, time');
    }
  }

  /** A trip's id tells its vehicle and the event time of its first point. */
  lemma TripIdsIdentify(t: Telemetry, u: Telemetry)
    ensures Detectors.TripId(t) == Detectors.TripId(u) <==> t.vehicleId == u.vehicleId && t.timestamp == u.timestamp
  {
    EventIdsIdentify("trip", t.vehicleId, t.timestamp, "start", "trip", u.vehicleId, u.timestamp, "start");
  }
}
