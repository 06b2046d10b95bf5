/**
 The canonical records that flow through the pipeline: telemetry points and the
 events derived from them. Times are integer nanoseconds and 0 is the zero time;
 quantities that the source keeps behind a pointer are options.
 */
module Schemas {

  const SECOND: int := 1_000_000_000
  const HOUR: int := 3600 * SECOND
  const SCHEMA_VERSION := 1

  datatype Option<+T> = None | Some(value: T)

  datatype Location = Location(lat: real, lng: real)
  datatype Source = Source(provider: string, deviceId: string)
  datatype Metadata = Metadata(correlationId: string, schemaVersion: int, sequence: Option<int>)

  /** One vehicle observation. `raw` is the preserved payload, represented by the
      text that its SHA-256 digest is written as; None is the missing payload. */
  datatype Telemetry = Telemetry(
    id: string, tenantId: string, vehicleId: string, deviceId: string,
    timestamp: int, receivedAt: int, location: Location,
    speedKmh: Option<real>, heading: Option<real>, ignition: Option<bool>, fuelLevel: Option<real>,
    raw: Option<string>, source: Source, metadata: Metadata)

  /** Every point carries an event time. */
  ghost predicate TimesSet(points: seq<Telemetry>) {
    forall t :: t in points ==> t.timestamp != 0
  }

  /** A value a rule looked at. */
  datatype Matched = Text(text: string) | Number(number: real)

  datatype Payload =
    | NoPayload
    | Position(lat: real, lng: real)
    | Speed(speedKmh: real, limitKmh: real, lat: real, lng: real)
    | TripStart(tripId: string, lat: real, lng: real)
    | TripEnd(tripId: string, distanceKm: real, lat: real, lng: real)
    | Fence(geofenceId: string, geofenceName: string, lat: real, lng: real)
    | RuleMatch(ruleId: string, ruleVersion: string, matchedEvent: string, matchedInputs: map<string, Matched>)

  datatype Event = Event(
    id: string, eventType: string, tenantId: string, vehicleId: string, timestamp: int,
    ruleId: string, ruleVersion: string, correlationId: string, causationId: string,
    payload: Payload, schemaVersion: int)

  /** Everything the contract asks of a point. */
  ghost predicate WellFormed(t: Telemetry) {
    && t.tenantId != "" && t.vehicleId != "" && t.deviceId != ""
    && t.timestamp != 0 && t.receivedAt != 0 && t.raw.Some?
    && -90.0 <= t.location.lat <= 90.0 && -180.0 <= t.location.lng <= 180.0
    && (t.speedKmh.Some? ==> 0.0 <= t.speedKmh.value)
    && (t.heading.Some? ==> 0.0 <= t.heading.value < 360.0)
    && (t.fuelLevel.Some? ==> 0.0 <= t.fuelLevel.value)
    && t.metadata.schemaVersion == SCHEMA_VERSION
  }

  /** First reason, in the order of the source, for which a point is malformed. */
  function Validate(t: Telemetry): (error: Option<string>)
    ensures error.None? <==> WellFormed(t)
  {
    if t.tenantId == "" then Some("tenantId required")
    else if t.vehicleId == "" then Some("vehicleId required")
    else if t.deviceId == "" then Some("deviceId required")
    else if t.timestamp == 0 || t.receivedAt == 0 then Some("timestamp and receivedAt required")
    else if t.location.lat < -90.0 || t.location.lat > 90.0 then Some("location.lat out of range")
    else if t.location.lng < -180.0 || t.location.lng > 180.0 then Some("location.lng out of range")
    else if t.speedKmh.Some? && t.speedKmh.value < 0.0 then Some("speed must be >= 0 km/h")
    else if t.heading.Some? && (t.heading.value < 0.0 || t.heading.value >= 360.0) then Some("heading must be [0,360)")
    else if t.fuelLevel.Some? && t.fuelLevel.value < 0.0 then Some("fuelLevel must be >= 0 litres")
    else if t.metadata.schemaVersion != SCHEMA_VERSION then Some("unsupported schemaVersion")
    else if t.raw.None? then Some("raw payload must be preserved (may be {})")
    else None
  }

  /** What the contract asks, in the order of the source, each with the reason given when it is not met. */
  ghost function Demands(t: Telemetry): seq<(bool, string)> {
    [(t.tenantId != "", "tenantId required"), (t.vehicleId != "", "vehicleId required"),
     (t.deviceId != "", "deviceId required"),
     (t.timestamp != 0 && t.receivedAt != 0, "timestamp and receivedAt required"),
     (-90.0 <= t.location.lat <= 90.0, "location.lat out of range"),
     (-180.0 <= t.location.lng <= 180.0, "location.lng out of range"),
     (t.speedKmh.Some? ==> 0.0 <= t.speedKmh.value, "speed must be >= 0 km/h"),
     (t.heading.Some? ==> 0.0 <= t.heading.value < 360.0, "heading must be [0,360)"),
     (t.fuelLevel.Some? ==> 0.0 <= t.fuelLevel.value, "fuelLevel must be >= 0 litres"),
     (t.metadata.schemaVersion == SCHEMA_VERSION, "unsupported schemaVersion"),
     (t.raw.Some?, "raw payload must be preserved (may be {})")]
  }

  /** The reason given is that of the first demand that is not met, and there is none when all are met. */
  lemma FirstReason(t: Telemetry) returns (k: nat)
    ensures k <= |Demands(t)| && forall j :: 0 <= j < k ==> Demands(t)[j].0
    ensures if k == |Demands(t)| then Validate(t).None? else !Demands(t)[k].0 && Validate(t) == Some(Demands(t)[k].1)
  {
    var ds := Demands(t);
    k := if !ds[0].0 then 0 else if !ds[1].0 then 1 else if !ds[2].0 then 2 else if !ds[3].0 then 3
         else if !ds[4].0 then 4 else if !ds[5].0 then 5 else if !ds[6].0 then 6 else if !ds[7].0 then 7
         else if !ds[8].0 then 8 else if !ds[9].0 then 9 else if !ds[10].0 then 10 else 11;
  }

  function Decimal(n: int): string
    decreases n < 0, if n < 0 then -n else n
  {
    if n < 0 then "-" + Decimal(-n)
    else if n < 10 then ["0123456789"[n]]
    else Decimal(n / 10) + ["0123456789"[n % 10]]
  }

  function Digit(c: char): int {
    c as int - '0' as int
  }

  /** The number that a text of digits stands for. */
  function Parse(s: string): int {
    if s == "" then 0 else 10 * Parse(s[..|s| - 1]) + Digit(s[|s| - 1])
  }

  /** Sequence-first identity, with the payload digest as fallback. */
  function DedupKey(t: Telemetry): (key: string) {
    t.source.provider + "|" + t.source.deviceId + "|" +
    if t.metadata.sequence.Some? then
      "seq:" + Decimal(t.metadata.sequence.value)
    else
      Decimal(t.timestamp) + "|" + (if t.raw.Some? then t.raw.value else "null")
  }

  function DeterministicId(eventType: string, vehicleId: string, timestamp: int, cause: string): string {
    eventType + ":" + vehicleId + ":" + Decimal(timestamp) + ":" + cause
  }

  /** An event about the vehicle of `t`, at the event time of `t`, caused by `t`. */
  function MakeEvent(eventType: string, t: Telemetry, cause: string, payload: Payload): Event {
    Event(DeterministicId(eventType, t.vehicleId, t.timestamp, cause), eventType, t.tenantId, t.vehicleId, t.timestamp,
          "", "", t.metadata.correlationId, t.id, payload, SCHEMA_VERSION)
  }

  const TRANSITION_SUFFIXES: set<string> := {"started", "continued", "ended", "entered", "exited", "created"}

  /** The text after the last dot, when there is a dot. */
  function Suffix(eventType: string): Option<string> {
    if eventType == "" then None
    else
      var last := |eventType| - 1;
      if eventType[last] == '.' then Some("")
      else
        match Suffix(eventType[..last])
        case None => None
        case Some(s) => Some(s + [eventType[last]])
  }

  predicate ValidEvent(e: Event) {
    && e.id != "" && e.eventType != "" && e.tenantId != "" && e.vehicleId != ""
    && Suffix(e.eventType).Some? && Suffix(e.eventType).value in TRANSITION_SUFFIXES
    && e.timestamp != 0
    && e.correlationId != ""
    && e.schemaVersion == SCHEMA_VERSION
  }
}
