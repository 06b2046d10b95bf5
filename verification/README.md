# TIDE: a verified model of the event-time pipeline

TIDE turns vehicle telemetry into states and events. Each point goes through
dedup, the durable log, the state engine, the detectors, the geofences and the
rules, and the events go out on a bus. This project models that path and its
components, and proves what the system promises about whole runs.

Times are integer nanoseconds and 0 is Go's zero time. Coordinates, speeds and
distances are reals. Clock readings, map iteration orders, random draws and bus
failures are inputs, so the theorems hold for every choice of them. One call of
the pipeline, and one visit of the offline sweep to a vehicle, is one atomic
step. The fences and rules in force are part of each arrival, so the theorems
about streams hold while operators change them.

## How it is laid out

| module | part of the system |
|---|---|
| `Schemas`, `Identity` | canonical points and events, and what the dedup key identifies |
| `Walks`, `Polygon`, `Triangles` | parity of crossings on closed cycles; ray casting and the bounding-box prefilter; what ray casting computes |
| `GeoTracker` | geofence membership |
| `VehicleStates`, `StateStore` | the state engine, the hot-state store and the offline sweep |
| `Sorting`, `Rebuild`, `Ties`, `Lateness` | in-place stable insertion sort; rebuilding hot state from the log; when ties and late points matter |
| `Debounce`, `Detectors` | speeding, idling and trip detectors |
| `Permutations`, `Rules`, `RuleMeaning`, `RuleSafety`, `ValveKeys` | rule evaluation and iteration order; what matches, fires and is recorded; the safety valves over whole runs |
| `Dedup`, `EventBus`, `Pipeline` | the dedup store, the buses and the processing path |
| `PipelineRuns`, `VehicleRules`, `Whereabouts`, `ComputedEvents`, `EventMeaning` | theorems about streams through the pipeline and about the events they compute |
| `Operations`, `OperatedRules` | the engine in operation: arrivals, sweep visits, heartbeats, fence updates, rule publications and bus failures in any mix |
| `Faults`, `Replay`, `ReplayTheorems`, `ReplayClocks` | fault injection, replay, and replay under faults |
| `RateLimiter`, `FlespiPath` | the fixed-window limiter with Retry-After; dotted paths |
| `Collections` | small laws of sequences and maps |

Code that changes state is modelled as classes and loops (`Polygon.Contains`,
`GeoTracker.Tracker`, `Rebuild.RebuildFrom`, `Rules.Engine`,
`Pipeline.Processor`, `Replay.Run` and others). Each such method is tied to a
specification function, and the theorems are about those functions.

`dafny verify dfyconfig.toml` checks the whole project.

## What the proofs say about the code

Where the code does less than its comments say, the model follows the code.

* A window length of the rate limiter admits at most `2 * Limit - 1` requests,
  and that bound is reached for every limit (`RateLimiter.BurstBound`,
  `RateLimiter.BurstBoundIsTight`).
* A comment in `internal/state/state.go` says the final state must not depend on
  arrival order. The rebuilt state of a vehicle does not if and only if every tie
  that matters is between points that agree (`Ties.RebuiltIgnoresOrderIff`): the
  points at the greatest event time on location, speed and tenant, the last that
  report ignition on it, the last outside the band on whether the vehicle moves,
  and, when it does not, the last slow or ignition-reporting ones on whether the
  ignition is on. `Rebuild.TiesDependOnArrival` is an instance.
* The live state is the rebuilt one if and only if late points left no trace in
  tenant, ignition and motion (`Lateness.LiveIsRebuiltIff`,
  `Operations.RebuildIsExactIff`): the last arrival and the newest point have the
  same tenant, and the last on-time points that report ignition and decide motion
  say what the newest such points of the whole log say. Whatever arrived, the two
  agree on what the newest point itself decides
  (`Rebuild.LiveAgreesWithRebuilt`); `Rebuild.LateDataLeavesTraces` and
  `Rebuild.LateIgnitionLeavesTraces` are failing families.
* Fences follow arrivals and hot state follows event time. After a late point
  membership is that of the late position, and it fits the shown position exactly
  when no fence separates the two (`Whereabouts.MembershipFitsIff`).
* A rebuild loses the result of sweeps. A rebuilt vehicle is online, and presence
  differs from the lost state exactly when a sweep found the vehicle silent and
  no on-time point has come since (`Operations.RebuildRestores`,
  `Rebuild.SilenceIsNotRebuilt`). Sweeps touch nothing else.
* The distance of an ended trip is the running total over all trips of the
  vehicle. It is the trip's own distance exactly when the trips before it cover
  no distance (`Detectors.TripDistances`, `Detectors.ReportsOwnTripIff`,
  `Detectors.SecondTripReportsBoth`).
* Repeated fence ids are accepted. Entered and exited still alternate, but a
  vehicle can be inside a fence and not a member of its id.
  `GeoTracker.MembershipAfter` gives the exact condition and
  `GeoTracker.RepeatedIdsLoseMembership` an instance.
* A point without a correlation id is valid, but every event computed for it is
  refused by the in-memory bus (`ComputedEvents.InMemoryBusDeliversIff`,
  `ComputedEvents.MovingWithoutCorrelation`).
* The dedup key does not escape its separator. It identifies provider, device and
  sequence exactly when no provider has a `|` in its name
  (`Identity.KeysIdentify`, `Identity.BarredProvidersCollide`).
* Nor does the key of the safety valves escape its slashes. The valves act per rule
  version and vehicle in every run without a slash in a vehicle id
  (`ValveKeys.ValvesRefinePair`), and that is the exact condition: every vehicle
  id with a slash has a run in which it is held back although it never fired, and
  one in which it holds back a vehicle without a slash
  (`ValveKeys.SlashesBreakValves`). Slashes in rule ids and versions do no harm.
* The flespi lookup does not follow a dotted key above a nested document
  (`FlespiPath.DottedParentIsNotFound`).
* `itoa` fails with an index panic from 100,000,000 on and prints nothing for a
  negative number (`RateLimiter.Itoa`).

## Model

| member | source | states |
|---|---|---|
| `Schemas.Validate` | schemas/telemetry/telemetry.go:64-99 | A point is accepted exactly when every field is present and in range. |
| `Schemas.FirstReason` | schemas/telemetry/telemetry.go:64-99 | The reason given is that of the first demand, in source order, that is not met. |
| `Identity.DecimalReads` | schemas/telemetry/telemetry.go:103-111 | The decimal text inside a key reads back as the number it was written from, negative or not. |
| `Identity.KeysIdentify` | schemas/telemetry/telemetry.go:101-111 | For providers without a bar in their name, two points share a dedup key if and only if provider, device and sequence agree, or, without a sequence, event time and payload digest. |
| `Identity.BarredProvidersCollide` | schemas/telemetry/telemetry.go:105-110 | Every point of a provider with a bar in its name shares its key with a point of a different provider. |
| `Identity.DevicesKeepKeysApart` | schemas/telemetry/telemetry.go:101-111 | When different vehicles report from different devices, no two vehicles share a dedup key. |
| `Identity.EventIdsIdentify` | schemas/events/events.go:36-39 | Two event ids are equal if and only if type, vehicle, event time and cause are, when types and causes hold no colon. |
| `Identity.TripIdsIdentify` | internal/detectors/detectors.go:195 | Two trip ids are equal if and only if vehicle and event time of the trip's first point are. |
| `Polygon.Contains` | internal/geo/geo.go:29-41 | The toggling loop computes the even-odd rule: an odd number of edges of the closed boundary cross the ray. |
| `Triangles.CrossOnLine` | internal/geo/geo.go:36 | The computed crossing lies on the line through the ends of the edge, at the latitude of the point. |
| `Triangles.ToggleIsSide` | internal/geo/geo.go:35-38 | An edge toggles exactly when it goes up past the point with the point on its positive side, or down with it on the negative side, the sides being signed areas. |
| `Triangles.TriangleIsSideTest` | internal/geo/geo.go:29-41 | For every triangle and every point off the lines of its edges: inside if and only if the point is on the same side of all three. |
| `Triangles.PolygonIsFan` | internal/geo/geo.go:29-41 | For every polygon, crossing itself or not, and every point off the lines of its fan: inside if and only if an odd number of the fan's triangles have the point on the same side of all their edges. |
| `Polygon.TogglesSymmetric` | internal/geo/geo.go:35-36 | The crossing test does not depend on the direction of the edge. |
| `Polygon.InsideReversed` | internal/geo/geo.go:29-41 | Reversing the vertex list changes no answer. |
| `Polygon.InsideRotated` | internal/geo/geo.go:29-41 | Starting the vertex list at any other vertex changes no answer. |
| `Polygon.InsideChord` | internal/geo/geo.go:29-41 | Cutting any polygon along a chord between two vertices: a point is in the whole exactly when it is in one part but not both. |
| `Polygon.CrossBetween` | internal/geo/geo.go:36 | A straddling edge meets the ray's line between its two ends. |
| `Polygon.BoxHit` | internal/geo/geo.go:49-65 | The min/max scan decides whether the point is in the box, including the box of an empty polygon and the starting values. |
| `Polygon.BoxMeaning` | internal/geo/geo.go:49-65 | On the map a point is out of the box of a polygon exactly when all its vertices are above it, below it, to its right or to its left. |
| `Polygon.CandidateFilter` | internal/geo/geo.go:46-70 | The result is the fences whose box holds the point, in list order. |
| `Polygon.PrefilterSound` | internal/geo/geo.go:46-70 | For every polygon and point, a containing fence survives the prefilter. |
| `GeoTracker.Tracker.SetFences` | internal/geo/geo.go:84-88 | The fence list is replaced and the memberships are kept. |
| `GeoTracker.Tracker.Evaluate` | internal/geo/geo.go:90-141 | New memberships and events are those of folding the candidate checks and then the left-behind checks; other vehicles are untouched. |
| `GeoTracker.CheckCandidates` | internal/geo/geo.go:101-102 | The candidate loop makes the full check of every box candidate, in order. |
| `GeoTracker.Absorb` | internal/geo/geo.go:103-122 | Comparing observations with the membership flips exactly those that differ, one event each. |
| `GeoTracker.CheckLeftBehind` | internal/geo/geo.go:124-139 | The second loop adds an exit for every remembered fence whose box was left. |
| `GeoTracker.FenceEventsAt` | internal/geo/geo.go:104-122 | The k-th event is that of the k-th flip: entered or exited, naming the fence, the position, the vehicle, its event time and the point that caused it, with an id made of these. |
| `GeoTracker.MembershipAfter` | internal/geo/geo.go:90-141 | For any fence list, repeated ids included: afterwards a vehicle is a member of an id exactly when the last fence with that id contains it and every fence with that id has it in its box; ids not listed keep their value. |
| `GeoTracker.EvaluateIsNaive` | internal/geo/geo.go:90-141 | With unique ids, membership afterwards equals containment for every fence and the flips are, as a multiset, exactly the changes that the naive check of every fence finds; other vehicles keep theirs. |
| `GeoTracker.FlipsOnce` | internal/geo/geo.go:90-141 | With unique ids a fence is entered once, exited once or neither, as the position and the membership before the point say. |
| `GeoTracker.RepeatedIdsLoseMembership` | internal/geo/geo.go:125-139 | Two fences under one id, both acceptable to the registry: a vehicle inside one of them that is not a member of the id. |
| `GeoTracker.EnterExitAlternate` | internal/geo/geo.go:72-141 | Over every run, with fence lists replaced and ids repeated at will, entered and exited strictly alternate for each vehicle and fence id, entered first, and membership tells which came last. |
| `VehicleStates.MotionMeaning` | internal/state/state.go:73-105 | The hysteresis, for every previous motion: moving is entered above 5 and left below 3; otherwise ignition decides, or the previous motion stays. |
| `VehicleStates.Apply` | internal/state/state.go:107-156 | An on-time point sets last-seen, position, speed, presence, motion and a reported ignition; a late point changes tenant and vehicle id only and emits nothing. |
| `VehicleStates.TransitionsAreDifferences` | internal/state/state.go:119-153 | The transitions of a point are exactly the differences it makes to motion, ignition and an offline presence. |
| `VehicleStates.CheckOffline` | internal/state/state.go:158-173 | Offline exactly after silence of more than three cadences (900 seconds by default), with one transition. |
| `VehicleStates.LastSeenIsMaximum` | internal/state/state.go:107-173 | Over every interleaving of points and sweeps, last-seen is the greatest event time applied. |
| `VehicleStates.MotionTransitionsChain` | internal/state/state.go:121-126 | Over every interleaving, motion transitions form one chain without self-steps from the unset motion to the current one. |
| `VehicleStates.IgnitionTransitionsChain` | internal/state/state.go:129-144 | Over every interleaving, ignition transitions form one chain to the current ignition, which is the one last reported by an on-time point. |
| `VehicleStates.PresenceAlternates` | internal/state/state.go:145-173 | Over every interleaving, presence transitions strictly alternate, offline first, and end at the current presence. |
| `VehicleStates.NoFlapping` | internal/state/state.go:81-93 | Between two entries into moving lies an on-time point below 3, and the second entry is an on-time point above 5. |
| `VehicleStates.OfflineIff` | internal/state/state.go:145-173 | Over every interleaving a vehicle is offline if and only if a sweep found it silent for more than three cadences and no on-time point has come since. |
| `StateStore.MemoryStore.Get` | internal/state/state.go:189-194 | A stored vehicle gives its state; a vehicle never stored gives the empty state. |
| `StateStore.MemoryStore.Set` | internal/state/state.go:196-201 | The state is stored under its own vehicle id and nothing else changes. |
| `StateStore.SweepOne` | cmd/tide-engine/server.go:76-89 | One visit writes and announces exactly when the vehicle goes offline. |
| `StateStore.VisitMeaning` | cmd/tide-engine/server.go:80-89 | A visit announces exactly when it turns the vehicle offline, with one event that names its type, vehicle, tenant and time. |
| `StateStore.Sweep` | cmd/tide-engine/server.go:66-91 | One pass, in any listing order, takes every vehicle through the offline check against its state from before the pass. |
| `StateStore.AnnouncedOnce` | cmd/tide-engine/server.go:75-90 | A pass announces exactly the vehicles that fall silent, each once. |
| `StateStore.AnnouncementsAreVisits` | cmd/tide-engine/server.go:75-90 | Every announcement of a pass is that of one of its visits. |
| `StateStore.FleetProjects` | cmd/tide-engine/server.go:75-90 | In every interleaving of reports and visits to single vehicles, each vehicle goes through its own run of points and sweeps. |
| `StateStore.FleetIsKeyed` | internal/state/state.go:196-201 | Every state in the store stays under its own vehicle id. |
| `Sorting.SiftDown` | internal/state/state.go:265-267 | The inner loop inserts one element in place after everything it is not earlier than. |
| `Sorting.InsertionSort` | internal/state/state.go:264-268 | The nested loops leave the array equal to the sort function of its old contents. |
| `Sorting.SortPermutes` | internal/state/state.go:264-268 | The result is ordered and a permutation of the input. |
| `Sorting.SortIsStable` | internal/state/state.go:264-268 | Elements that tie keep their order. |
| `Sorting.OrderedUnique` | internal/replay/replay.go:28-33 | Two ordered permutations of a list in which only equal elements tie are the same list, so any correct sort gives it. |
| `Rebuild.GroupByVehicle` | internal/state/state.go:258-261 | Each vehicle's group is its points in log order. |
| `Rebuild.RebuildOne` | internal/state/state.go:263-272 | Sorting a group in place and folding it gives the rebuilt state of that group. |
| `Rebuild.RebuildFrom` | internal/state/state.go:255-279 | Every vehicle of the log gets its rebuilt state; the rest of the store is kept. |
| `Rebuild.LiveProjects` | internal/pipeline/pipeline.go:97-105 | Folding a log live gives each vehicle the fold of its own points. |
| `Rebuild.StateShowsNewest` | internal/state/state.go:107-156 | In every arrival order the state shows the last-arrived point among those with the greatest event time. |
| `Rebuild.SweepsTouchPresenceOnly` | cmd/tide-engine/server.go:76-84 | With any sweeps in between, a vehicle's state is the fold of its points alone in every field but presence. |
| `Rebuild.LiveAgreesWithRebuilt` | internal/state/state.go:255-279 | For every interleaving of points, in any arrival order, and sweep visits: live and rebuilt state of a vehicle agree on last-seen, position and speed, on an ignition the newest point reports, on motion when the newest speed is outside the band, and on all but presence when its points arrived in time order; presence differs if and only if a sweep found the vehicle silent and no on-time point has come since. |
| `Rebuild.SilenceIsNotRebuilt` | cmd/tide-engine/server.go:75-84 | An instance: after one point and a visit 901 seconds later the live vehicle is offline and the rebuilt one online. |
| `Rebuild.RebuildIgnoresArrivalOrder` | internal/state/state.go:263-268 | The simple case of the exact condition below: different points have different event times. |
| `Ties.ReadingIgnoresOrderIff` | internal/state/state.go:263-272 | For every log: last-seen, position and speed of the rebuilt state are the same for every arrival order if and only if all points at the greatest event time agree on location and speed. |
| `Ties.TenantIgnoresOrderIff` | internal/state/state.go:263-272 | The same for the tenant. |
| `Ties.IgnitionIgnoresOrderIff` | internal/state/state.go:263-272 | The rebuilt ignition is the same for every arrival order if and only if the last points that report one agree on it. |
| `Ties.MotionIgnoresOrderIff` | internal/state/state.go:263-272 | The rebuilt motion is the same for every arrival order if and only if the last points outside the band are all fast or all slow and, unless they are fast, the last points that tell idle from stopped agree. |
| `Ties.RebuiltIgnoresOrderIff` | internal/state/state.go:263-272 | For every log of a vehicle: the whole rebuilt state is the same for every arrival order if and only if all these ties agree. |
| `Ties.SortFilter` | internal/state/state.go:264-268 | The stable sort commutes with taking a part of the log. |
| `Rebuild.LateDataLeavesTraces` | internal/state/state.go:94-104 | For every newest point not outside the band, an earlier fast point that arrives late leaves live and rebuilt motion apart. |
| `Rebuild.LateIgnitionLeavesTraces` | internal/state/state.go:129-144 | For every newest point that reports no ignition, a late point that reports one leaves live and rebuilt ignition apart. |
| `Rebuild.TenantsAgreeIff` | internal/state/state.go:118 | Live and rebuilt tenant agree if and only if the last arrival and the newest point have the same tenant. |
| `Lateness.LiveIsOnTime` | internal/state/state.go:107-156 | Tenant and vehicle id aside, the live state is the fold of the points that were on time, which are in time order. |
| `Lateness.LiveMotion` | internal/state/state.go:121-126 | The live motion is what the last on-time point outside the band and the last on-time point that tells idle from stopped say. |
| `Lateness.LiveMotionAgreesIff` | internal/state/state.go:255-279 | Log by log: live and rebuilt motion agree if and only if those points say what the newest such points of the whole log say. |
| `Lateness.LiveIgnitionAgreesIff` | internal/state/state.go:255-279 | Log by log: live and rebuilt ignition agree if and only if the last on-time report is the newest report of the whole log. |
| `Lateness.LiveIsRebuiltIff` | internal/state/state.go:255-279 | Log by log: the live state is the rebuilt one if and only if late points left no trace in tenant, ignition and motion. |
| `Rebuild.TiesDependOnArrival` | internal/state/state.go:265 | An instance: two points with the same event time and different speeds. |
| `Debounce.TrackMeaning` | internal/detectors/detectors.go:160-183 | The constant-space track always equals the block's first sample and whether the hold was reached in it. |
| `Debounce.DebounceMeaning` | internal/detectors/detectors.go:160-183 | Over any history, started exactly at the first sample of a maximal block at least the hold after its first, ended exactly at the first sample after such a block. |
| `Detectors.Tracker.SpeedingDetect` | internal/detectors/detectors.go:123-158 | The switch over the vehicle's record is the speeding step; other vehicles keep theirs. |
| `Detectors.Tracker.IdleDetect` | internal/detectors/detectors.go:160-183 | The idle detector is the hold-off over idle samples. |
| `Detectors.Tracker.TripDetect` | internal/detectors/detectors.go:185-219 | The in-place updates of the trip record are the trip step; other vehicles keep theirs. |
| `Detectors.Tracker.Detect` | internal/detectors/detectors.go:83-92 | The three detectors run on one point and their events come out in that order. |
| `Detectors.SpeedingMeaning` | internal/detectors/detectors.go:116-158 | The speeding detector equals its meaning over the whole history of reported speeds: started, ended and continued at exactly the points the definition names. |
| `Detectors.ContinuedAreSpaced` | internal/detectors/detectors.go:143-148 | In a block over the limit, n continued events span at least n times the interval. |
| `Detectors.SpeedEventsAreTrue` | internal/detectors/detectors.go:116-158 | An edge gives exactly one event, of its type and with the reported speed, the limit and the position; started and continued are above the limit and ended is not, so with a limit that is not negative a point without a speed starts and continues nothing. |
| `Detectors.IdleEventsAreTrue` | internal/detectors/detectors.go:171-178 | An idling edge gives exactly one event of its type, and a quiet step none. |
| `Detectors.TripMeaning` | internal/detectors/detectors.go:192-216 | The trip detector equals its meaning over the whole history: a trip opens exactly when none is open and the vehicle moves, and the open trip ends exactly at a point that reports ignition off or is at least TripEndSecs after the last moving point of the trip. |
| `Detectors.OpenSinceMeaning` | internal/detectors/detectors.go:192-213 | The open trip began at a moving point when none was open, and no point since has ended it. |
| `Detectors.TripEventsPair` | internal/detectors/detectors.go:185-219 | For any point order, trip events strictly alternate, started first, and each ended carries the id of its started. |
| `Detectors.TripEventsCarry` | internal/detectors/detectors.go:199-215 | Published trip events carry type, trip id and position, and an ended trip its distance within half a hundredth of a kilometre. |
| `Detectors.TripBookAgrees` | internal/detectors/detectors.go:193-213 | The trip record agrees at every point with the spans of trips read off the emitted events. |
| `Detectors.TripDistances` | internal/detectors/detectors.go:202-215 | The n-th ended event reports the sum of the hops inside trips 1 to n; no hop across a gap between trips is counted. |
| `Detectors.ReportsOwnTripIff` | internal/detectors/detectors.go:193-206 | A trip's reported distance is its own exactly when the trips before it sum to zero. |
| `Detectors.SecondTripReportsBoth` | internal/detectors/detectors.go:193-206 | The failing family: of two trips made of four points in time order, the second reports both hops. |
| `Detectors.TrackerProjects` | internal/detectors/detectors.go:59-92 | In a mixed stream each vehicle has its own three detectors over its own points. |
| `Rules.Engine.Publish` | internal/rules/rules.go:112-123 | A version is added, or rejected when it is published with other content; nothing else changes. |
| `Rules.PublishMeaning` | internal/rules/rules.go:112-123 | A version is published unless it is there with other content; publishing the same content again succeeds, and no other version is touched. |
| `Rules.Prune` | internal/rules/rules.go:196-201 | The inner loop keeps exactly the fires after the cut, in order. |
| `Rules.Engine.EvaluateEvent` | internal/rules/rules.go:171-244 | One event against one rule: match, cooldown, hourly cap, emission, memory and trace. |
| `Rules.Engine.PassValves` | internal/rules/rules.go:188-205 | Cooldown, pruning and hourly cap decide and change the valve memory as one step on one key. |
| `Rules.Engine.EvaluateRule` | internal/rules/rules.go:169-245 | The loop over the events for one rule. |
| `Rules.Engine.Evaluate` | internal/rules/rules.go:162-248 | For any iteration order of the rules map: events, appended triggers and valve state of the rules one after the other; published rules untouched. |
| `Rules.RuleIsLocal` | internal/rules/rules.go:188-205 | A rule's outcome depends on one key of the valve memory, and no other key changes. |
| `Rules.EntryAfter` | internal/rules/rules.go:188-205 | After an evaluation each valve key holds what its own rule alone would have left. |
| `Rules.RulesAreIndependent` | internal/rules/rules.go:168-246 | Events and triggers are those each rule gives by itself, in iteration order. |
| `Rules.OrderIsIrrelevant` | internal/rules/rules.go:168-246 | Every two iteration orders give the same multiset of events, the same multiset of triggers and the same valve state; with at most one rule there is only one order. |
| `RuleMeaning.MeetsIsHolds` | internal/rules/rules.go:125-160 | A condition is met if and only if the named reading of the point or state is there and stands in the operator's relation to the value; other fields and operators never hold. |
| `RuleMeaning.FiresIff` | internal/rules/rules.go:170-244 | For an event of the rule's type and vehicle, while the valves allow it: the rule fires if and only if every condition holds, and then records its trigger and emits its event whenever that is valid. |
| `RuleMeaning.QuotaStep` | internal/rules/rules.go:188-205 | How many fires the valves still allow at a reading, and that each fire uses up one. |
| `RuleMeaning.RuleRunMeaning` | internal/rules/rules.go:169-245 | One rule over all events of a point: its matched events fire in order until the quota is used up, each with its trigger and event. |
| `RuleMeaning.EveryRuleHasItsSay` | internal/rules/rules.go:163-248 | In an evaluation every published rule fires on its matched events up to its quota. |
| `RuleMeaning.AfterMeaning` | internal/rules/rules.go:195-201 | The recent fires are exactly those after the cut, each as often as it was recorded. |
| `RuleMeaning.TriggersAreJustified` | internal/rules/rules.go:170-187 | Every trigger names a published rule, an event that it matched, every condition with the reading that met it, and the action taken. |
| `RuleMeaning.RuleEventsAreAnswers` | internal/rules/rules.go:206-224 | Every rule event is valid, names its rule version and inputs and is caused by an event that the rule matched. |
| `Rules.EvaluationReadsSpeed` | internal/rules/rules.go:125-144 | An evaluation reads nothing of the vehicle state but its speed. |
| `RuleSafety.ValvesRefineTrace` | internal/rules/rules.go:188-205 | Per valve key, the pruned memory decides exactly as the full trigger trace under that key would. |
| `RuleSafety.ValvesHold` | internal/rules/rules.go:188-244 | Over every run of publishing and evaluating with a clock that never goes backward: at most MaxActionsPerHour fires in every (a, a + 1h], fires at least the cooldown apart, and last-fire and fire-log recoverable from the trace. |
| `ValveKeys.KeysIdentify` | internal/rules/rules.go:189 | Among published rules and slash-free vehicle ids, two valve keys are equal if and only if rule id, version and vehicle are. |
| `ValveKeys.ValvesRefinePair` | internal/rules/rules.go:188-205 | In every run, for every published rule and every later clock reading, without a slash in a vehicle id: the valves decide exactly as the fires of that rule version for that vehicle alone would. |
| `ValveKeys.ValvesAllowIff` | internal/rules/rules.go:188-205 | In such a run a rule may fire exactly when it fired fewer than MaxActionsPerHour times for the vehicle in the last hour and its every fire for the vehicle is at least the cooldown ago. |
| `ValveKeys.SlashedVehiclesCollide` | internal/rules/rules.go:189 | Every vehicle with a slash in its id shares its valve key with another vehicle under another version. |
| `ValveKeys.SharedKeyHoldsBack` | internal/rules/rules.go:189-205 | Under a shared key there is a run after which the fire of one pair holds back another pair that never fired. |
| `ValveKeys.SlashesBreakValves` | internal/rules/rules.go:189-205 | The converse: for every vehicle with a slash in its id there is a run in which it is held back, and one in which it holds back a vehicle without a slash, against what their own fires allow. |
| `RuleSafety.PublishedSpecsAreImmutable` | internal/rules/rules.go:112-123 | Over every run a published spec stays what it was. |
| `Dedup.Check` | internal/dedup/dedup.go:37-42 | A key is a hit exactly while it is younger than the time to live; a hit changes nothing, not even the recorded time; a miss records the reading. |
| `Dedup.MemoryStore.Seen` | internal/dedup/dedup.go:34-43 | A key is a duplicate exactly for less than the time to live after it was recorded. |
| `EventBus.MemoryBus.Publish` | internal/eventbus/eventbus.go:24-32 | Valid events are appended, invalid ones refused without a trace. |
| `EventBus.FanOut` | internal/eventbus/eventbus.go:80-88 | Every child is offered the event even after a failure, as often as it is listed, and has added the event once for each offer it took; the first failure is reported. |
| `EventBus.FirstFailureMeaning` | internal/eventbus/eventbus.go:81-87 | No error is reported exactly when every child took the event; otherwise it is the error of the first child that failed. |
| `EventBus.ResilientBus.Publish` | internal/eventbus/eventbus.go:121-145 | One attempt; after a failure exactly one dial, and exactly one more attempt when the dial succeeds; the error is that of the last step, and it is recorded. |
| `Pipeline.MemoryLog.Append` | internal/pipeline/pipeline.go:35-40 | The point goes to the end of the log. |
| `Pipeline.Processor.Process` | internal/pipeline/pipeline.go:73-119 | Whole effect of one call under the fences and rules in force: validation, skew bound, dedup, log, state, detectors, geofences, rules, triggers, and publishing that stops at the first failure; the error carries all computed events and the bus has received a prefix of them. |
| `Pipeline.Processor.Derive` | internal/pipeline/pipeline.go:94-109 | Log, state, detectors and geofences of a fresh point. |
| `Pipeline.Processor.PublishAll` | internal/pipeline/pipeline.go:113-118 | Exactly the events before the first failure go out; on a failure all of them come back with its reason. |
| `ComputedEvents.RefusalMeaning` | internal/pipeline/pipeline.go:77-86 | A point is refused exactly when it is malformed or more than an hour ahead of the clock. |
| `ComputedEvents.ReplyMeaning` | internal/pipeline/pipeline.go:62-119 | What the caller hears: the reason of a refusal; the duplicate flag exactly when the key was recorded inside the time to live, with nothing changed; or no error, when every event went out; or all computed events with the reason of the first that did not. |
| `PipelineRuns.IngestOutline` | internal/pipeline/pipeline.go:76-105 | A point is refused, absorbed or accepted under exact conditions; refused and absorbed points change nothing. |
| `PipelineRuns.SeenMeaning` | internal/dedup/dedup.go:34-43 | Over a stream the store remembers, for each key, when it was last accepted. |
| `PipelineRuns.DuplicateIffRepeats` | internal/pipeline/pipeline.go:87-93 | A point that is not refused is a duplicate if and only if it repeats an accepted point inside the time to live. |
| `PipelineRuns.RepeatsChangeNothing` | internal/pipeline/pipeline.go:87-93 | Leaving any set of repeats out of a stream leaves log, states, detector, geofence and rule memory and all computed events the same. |
| `PipelineRuns.LogIsTaken` | internal/pipeline/pipeline.go:94-96 | The log is the accepted points in arrival order. |
| `PipelineRuns.OneEntryPerKey` | internal/pipeline/pipeline.go:87-96 | Inside one time to live the log has exactly one entry for each key of a point that was not refused. |
| `PipelineRuns.WatermarkIsBounded` | internal/pipeline/pipeline.go:80-86 | No last-seen is ever more than an hour past the latest clock reading, and every logged point is well formed. |
| `PipelineRuns.VehiclesDoNotInterfere` | internal/pipeline/pipeline.go:94-109 | When no two vehicles share a dedup key, any interleaving gives each vehicle the state, detector memory, membership and derived events of its own stream alone. |
| `VehicleRules.EvaluationAgrees` | internal/rules/rules.go:163-248 | An evaluation for a vehicle depends on, and leaves, what the valves hold for that vehicle. |
| `VehicleRules.EvaluationElsewhere` | internal/rules/rules.go:189-205 | It leaves the valves of other vehicles alone, when no id holds a slash. |
| `VehicleRules.RulesDoNotInterfere` | internal/pipeline/pipeline.go:94-112 | With slash-free ids, any interleaving also gives each vehicle the rule events and valves of its own stream alone. |
| `Whereabouts.MembershipFollowsArrival` | internal/pipeline/pipeline.go:101-109 | After any stream a vehicle is a member of a fence exactly when the fence contains the position of its last accepted point, late or not; hot state shows that position if the point was on time and the one before it otherwise. |
| `Whereabouts.MembershipFitsIff` | internal/pipeline/pipeline.go:101-109 | Membership fits the shown position if and only if no fence separates it from the last accepted point, which always holds when that point was on time. |
| `Operations.Operate` | cmd/tide-engine/server.go:29-102 | A loop over arrivals, sweep visits, heartbeats, fence updates and rule publications that goes on after every error computes the run that the theorems below are about, down to the trigger trace and the attempts on the bus. |
| `Operations.PerformVisit` | cmd/tide-engine/server.go:76-89 | One visit changes the hot state of its vehicle and offers its announcement to the bus, and nothing else. |
| `Operations.OperationIsStream` | internal/pipeline/pipeline.go:76-119 | For every run and every pattern of bus failures: log, dedup, detector, geofence and rule memory and all computed events are those of the arrivals alone, each under the policy in force at it, and hot state is too in every field but presence. |
| `Operations.HotStateIsLive` | internal/pipeline/pipeline.go:94-105 | In every run, sweeps included, hot state is the live fold of the log in every field but presence. |
| `Operations.HotStateIsFleet` | internal/pipeline/pipeline.go:94-105 | In every run hot state is, presence included, the run of the accepted points and the sweep visits, and the log is those points. |
| `Operations.RebuildRestores` | internal/state/state.go:255-279 | In every run, what a rebuild makes of the log agrees with the lost hot state to the extent stated for live and rebuilt state, and presence differs exactly under the condition stated there. |
| `Operations.RebuildIsExactIff` | internal/state/state.go:255-279 | In every run a rebuild of the log gives back the lost state of a vehicle, presence aside, if and only if late points left no trace in it. |
| `Operations.PolicyMeaning` | internal/api/server.go:337-347 | The fences in force are those set last, and published specs stay in force. |
| `Operations.PublishedIsInForce` | internal/rules/rules.go:112-123 | A rule is in force from its publication on, unless its version is there with other content. |
| `Operations.EverythingIsOffered` | internal/pipeline/pipeline.go:113-117 | The bus is offered the computed events, the announcements and the heartbeats of a run, and nothing else. |
| `Operations.AllIsDelivered` | internal/pipeline/pipeline.go:113-118 | Without failures everything handed to the bus is delivered, in order. |
| `OperatedRules.CapsHoldInOperation` | internal/rules/rules.go:188-244 | In every run of the engine whose rules clock never goes backward, whatever else happens in it, every hour holds at most MaxActionsPerHour fires of a rule version for a vehicle, and fires keep their cooldown. |
| `ComputedEvents.EventsAreAboutTheirPoint` | internal/detectors/detectors.go:94-114 | Every event of a call names the vehicle, tenant, event time and correlation of its point; derived events have transition types and rule events are valid. |
| `ComputedEvents.ValidEventMeaning` | schemas/events/events.go:41-59 | An event is valid exactly when its identity, time and correlation are there, its version is current and its type is a name, a dot and a transition. |
| `EventMeaning.FenceEventsOfPoint` | internal/pipeline/pipeline.go:106-109 | Among the events of an accepted point, for every fence in force, ids unique: entered exactly once if the fence contains the position and the vehicle was not a member, exited exactly once in the reverse case, neither otherwise. |
| `EventMeaning.CrossingsAlternate` | internal/pipeline/pipeline.go:106-119 | In the computed events of every stream, fence lists replaced and ids repeated at will, entered and exited strictly alternate for each vehicle and fence id, and membership tells which came last. |
| `EventMeaning.SpeedingInStream` | internal/pipeline/pipeline.go:101-106 | In every stream the speeding events of an accepted point are exactly what the definition over the vehicle's accepted history says. |
| `EventMeaning.IdlingInStream` | internal/pipeline/pipeline.go:101-106 | So are its idling events, over the motions its history leaves. |
| `EventMeaning.TripsInStream` | internal/pipeline/pipeline.go:101-106 | So are its trip events. |
| `EventMeaning.RulesOfPoint` | internal/pipeline/pipeline.go:110-112 | The rules see exactly the events of detectors and fences, and every published rule's events and triggers for them are among those of the point. |
| `ComputedEvents.InMemoryBusDeliversIff` | schemas/events/events.go:41-59 | The in-memory bus takes everything computed for a point if and only if the point has a correlation id or nothing was computed. |
| `ComputedEvents.MovingWithoutCorrelation` | schemas/events/events.go:52-54 | The failing family: the first point of any moving vehicle without a correlation id is processed and its trip event refused. |
| `Faults.Apply` | simulator/faults/faults.go:57-87 | With duplicates and swaps only, the loops compute the faulted recording for every sequence of draws. |
| `Faults.InjectMeaning` | simulator/faults/faults.go:72-77 | Every point is kept, in order, and followed by its copy exactly when its draw is under a positive rate. |
| `Faults.SwapMeaning` | simulator/faults/faults.go:79-85 | At each pair a draw under a positive rate exchanges it and the pass goes on after it; else the pass goes on with the second point. |
| `Faults.SwapPass` | simulator/faults/faults.go:79-85 | The in-place pass makes disjoint adjacent swaps. |
| `Faults.SwapsAreLocal` | simulator/faults/faults.go:79-85 | No point moves further than one place. |
| `Faults.FaultedIsPermutation` | simulator/faults/faults.go:72-85 | A faulted recording is a permutation of the clean one and copies of some of its points. |
| `Replay.IdLessMeaning` | internal/replay/replay.go:29-31 | Ids are ordered by the first place where they differ. |
| `Replay.ReplayListUnique` | internal/replay/replay.go:27-33 | Every recording can be sorted, and with distinct pairs of event time and id every sort gives the same list. |
| `Replay.Run` | internal/replay/replay.go:25-44 | For whatever ordered permutation the library sort gives, the loop is the fold of the pipeline over it, stopped at the first error, which names its point. |
| `Replay.ReplayStopsForGood` | internal/replay/replay.go:38-40 | After an error nothing that follows matters. |
| `Replay.ReplayHaltsAt` | internal/replay/replay.go:36-40 | A replay that fails names the point at which it did, and says what the pipeline answered there. |
| `Replay.ResultMeaning` | internal/replay/replay.go:38-43 | A replay returns all events of its stream and the number of its points, or the first error. |
| `Replay.ReplayIsStream` | internal/replay/replay.go:34-43 | A replay that goes through leaves the memory and events of the plain stream of its points. |
| `ReplayTheorems.NeverLate` | internal/state/state.go:121-122 | In event-time order no point takes the late branch. |
| `ReplayTheorems.StateIsRebuilt` | internal/state/state.go:255-279 | In event-time order hot state equals the rebuild from the written log on every field. |
| `ReplayTheorems.ReplayIsOrderly` | internal/replay/replay.go:26-44 | For every outcome of the sort, ties included: a replay never takes the late branch; when it goes through, its events have come out in non-decreasing event time and its final state is the rebuild of the log it wrote. |
| `ReplayTheorems.ReplaySkipsCopies` | internal/pipeline/pipeline.go:87-93 | Under a fixed clock and iteration order, points that repeat the key of an earlier one can be dropped from a replay. |
| `ReplayTheorems.ReplayAbsorbsFaults` | simulator/faults/faults.go:57-87 | For every random choice, replaying a recording with injected duplicates and swaps gives exactly what the clean recording gives: the same memory and events, or the same error at the same point. Asked for: distinct pairs of event time and id, a fixed clock, at most one rule. |
| `ReplayTheorems.ReplayIgnoresArrivalOrder` | internal/replay/replay.go:26-44 | A replay does not depend on the order in which its points are handed over. |
| `ReplayTheorems.ReplayDeterministicUpToRuleOrder` | internal/replay/replay.go:1-7 | With any number of rules and any iteration orders, two replays through the in-memory bus end with the same memory and the same multiset of events, or fail at the same point. |
| `ReplayTheorems.ReplayAbsorbsFaultsUpToRuleOrder` | simulator/faults/faults.go:57-87 | With any number of rules, replaying the faulted recording through the in-memory bus gives the memory and the multiset of events of the clean one, or fails at the same point. |
| `ReplayClocks.ReplayIgnoresClocks` | internal/replay/replay.go:34-43 | Without rules, two replays of the same points, each inside its own time to live and past every skew bound, give the same error or the same events and memory, up to when keys were seen. |
| `ReplayClocks.ReplayAbsorbsFaultsAtAnyClock` | simulator/faults/faults.go:57-87 | Without rules, injected faults are absorbed under any such clocks. |
| `RateLimiter.Limiter.Allow` | internal/api/security.go:69-88 | A request counts against its own client's window only; a limit that is not positive admits everything. |
| `RateLimiter.AdmittedIff` | internal/api/security.go:78-87 | A request is admitted if and only if fewer than limit requests of its window came before it, and the window ends one span after its first request. |
| `RateLimiter.BurstBound` | internal/api/security.go:69-88 | With a clock that never goes backward, any closed interval of one window length admits at most 2 * limit - 1 requests of a client. |
| `RateLimiter.BurstBoundIsTight` | internal/api/security.go:78-87 | For every positive limit and window some schedule of requests reaches that bound. |
| `RateLimiter.RetrySecondsMeaning` | internal/api/security.go:94 | The printed seconds are the wait rounded up to the next whole second. |
| `RateLimiter.RetryAfterSuffices` | internal/api/security.go:83-95 | A refused client that alone waits the printed seconds is admitted next, as section 4 of RFC 6585 intends. |
| `RateLimiter.Itoa` | internal/api/security.go:103-115 | The text is the number in decimal digits without leading zeros, exactly while it has at most eight digits. |
| `RateLimiter.RetryAfterHeader` | internal/api/security.go:94-95 | The header is the delay-seconds form of section 10.2.3 of RFC 9110 while the seconds fit eight digits. |
| `RateLimiter.ClientsAreApart` | internal/api/security.go:74-82 | In any mix of clients each sees exactly its own requests. |
| `FlespiPath.SplitPath` | adapters/flespi/flespi.go:119-129 | The scanning loop computes the split at every dot. |
| `FlespiPath.JoinKeys` | adapters/flespi/flespi.go:108-117 | The loop computes the join with dots. |
| `FlespiPath.JoinSplit` | adapters/flespi/flespi.go:108-129 | Joining what was split gives every string back, and the keys hold no dots. |
| `FlespiPath.SplitJoin` | adapters/flespi/flespi.go:108-129 | Splitting what was joined gives back every non-empty list of dot-free keys. |
| `FlespiPath.NumAtShallowest` | adapters/flespi/flespi.go:66-94 | The lookup gives the number at the shallowest level where the flat rest of the path is present, and nothing when there is none. |
| `FlespiPath.NumbersOnly` | adapters/flespi/flespi.go:96-106 | Floats and integers count as their value, and nothing else counts. |
| `FlespiPath.ShapesAgree` | adapters/flespi/flespi.go:66-94 | Flat, nested and mixed shapes give the same value, whatever other fields stand around it at each level, unless a shallower level has the rest of the path as a flat key. |
| `FlespiPath.DottedParentIsNotFound` | adapters/flespi/flespi.go:76-91 | A dotted key above a nested document is not followed. |

## Left out

- Redis, NATS, Postgres, MQTT, HTTP and WebSocket code: input and output over libraries. The in-memory stores and buses are modelled.
- Errors of the dedup store, the log and the state store: the in-memory ones never return any.
- Locks and interleavings inside one call: each call of the pipeline and each visit of the sweep is one step, although the code gets and sets a state without a lock across both.
- Floating point: coordinates, speeds and distances are reals, so rounding in ray casting and in sums of distances is not captured.
- The great-circle formula: distance is a parameter of the detectors.
- SHA-256, JSON and RFC 3339: a payload is represented by the text of its digest, and event times in keys and ids by their decimal nanoseconds.
- Saturation of time differences and overflow of counters and durations: times and counts are unbounded integers.
- UpdatedAt and the time of the last bus error: wall-clock readings that nothing else reads.
- The quality note and the other descriptive fields of a point, which no modelled code reads.
- Webhook dispatch: no dispatcher is attached. With one, the delivered target depends on iteration order.
- The wording of trigger descriptions: the condition and the value seen are kept instead of the formatted text.
- Rule files: parsing is left out. Specs are compared by value, so the difference between a nil and an empty list is not seen.
- Faults.Apply: models the duplicate and out-of-order faults only. Offline-vehicle, missing, late and drift faults change the data on purpose, so nothing is promised to survive them.
- Comparing two replays: two calls of the modelled one.
- The library sort of a replay: its result is an input, any ordered permutation of the recording.
- Closing the old connection on a redial, and resubscribing.
- Client addresses: the limiter is given the client's key.
- Tenants, vehicle records, the content of heartbeats, scenario generation, configuration, observability, the command line, the console and the SDK.
