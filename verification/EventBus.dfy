/** Buses: a transport that may fail, the fan-out over several, and the redialling wrapper. */
module EventBus {
  import opened Collections
  import opened Schemas

  /** The fate of the n-th publish call: no error, or an error. */
  type Outcomes = (nat, Event) -> Option<string>

  /** The in-memory bus refuses invalid events and nothing else. */
  function MemoryOutcomes(): Outcomes {
    (n: nat, e: Event) => if ValidEvent(e) then None else Some("invalid event")
  }

  class Transport {
    const outcomes: Outcomes
    var attempts: nat
    var delivered: seq<Event>

    constructor (outcomes: Outcomes)
      ensures this.outcomes == outcomes && attempts == 0 && delivered == []
    {
      this.outcomes := outcomes;
      attempts, delivered := 0, [];
    }

    method Publish(e: Event) returns (error: Option<string>)
      modifies this
      ensures attempts == old(attempts) + 1
      ensures error == outcomes(old(attempts), e)
      ensures delivered == if error.None? then old(delivered) + [e] else old(delivered)
    {
      error := outcomes(attempts, e);
      attempts := attempts + 1;
      if error.None? {
        delivered := delivered + [e];
      }
    }
  }

  /** The in-memory bus as the source writes it, apart from the general transport. */
  class MemoryBus {
    var events: seq<Event>

    constructor ()
      ensures events == []
    {
      events := [];
    }

    method Publish(e: Event) returns (error: Option<string>)
      modifies this
      ensures error == MemoryOutcomes()(0, e)
      ensures events == if ValidEvent(e) then old(events) + [e] else old(events)
    {
      if !ValidEvent(e) {
        return Some("invalid event");
      }
      events := events + [e];
      error := None;
    }
  }

  // ---------------------------------------------------------------- fan-out

  /** How often child `c` is among the first `n`. */
  ghost function Offers(children: seq<Transport>, n: nat, c: Transport): nat
    requires n <= |children|
  {
    if n == 0 then 0 else Offers(children, n - 1, c) + if children[n - 1] == c then 1 else 0
  }

  /** The outcome of offering to child `i`; `was` holds the attempts each child had seen before. */
  ghost function OfferFate(children: seq<Transport>, was: map<Transport, nat>, e: Event, i: nat): Option<string>
    requires i < |children| && children[i] in was
  {
    children[i].outcomes(was[children[i]] + Offers(children, i, children[i]), e)
  }

  ghost predicate Covers(was: map<Transport, nat>, children: seq<Transport>) {
    forall i :: 0 <= i < |children| ==> children[i] in was
  }

  /** How often child `c` took the event, among the first `n`. */
  ghost function Takes(children: seq<Transport>, was: map<Transport, nat>, e: Event, n: nat, c: Transport): nat
    requires n <= |children| && Covers(was, children)
  {
    if n == 0 then 0
    else Takes(children, was, e, n - 1, c) + if children[n - 1] == c && OfferFate(children, was, e, n - 1).None? then 1 else 0
  }

  /** The first failure among the first `n` children. */
  ghost function FirstFailure(children: seq<Transport>, was: map<Transport, nat>, e: Event, n: nat): Option<string>
    requires n <= |children| && Covers(was, children)
  {
    if n == 0 then None
    else
      var before := FirstFailure(children, was, e, n - 1);
      if before.Some? then before else OfferFate(children, was, e, n - 1)
  }

  /** Nothing is reported exactly when every child took the event; otherwise the error is that of the first child that
      failed. */
  lemma {:induction false} FirstFailureMeaning(children: seq<Transport>, was: map<Transport, nat>, e: Event, n: nat)
    requires n <= |children| && Covers(was, children)
    ensures var first := FirstFailure(children, was, e, n);
      if first.None? then forall i :: 0 <= i < n ==> OfferFate(children, was, e, i).None?
      else exists i :: 0 <= i < n && OfferFate(children, was, e, i) == first && FirstFailure(children, was, e, i).None?
  {
    if n > 0 { FirstFailureMeaning(children, was, e, n - 1); }
  }

  ghost function AttemptsOf(children: seq<Transport>): (was: map<Transport, nat>)
    reads children
    ensures Covers(was, children)
  {
    map c | c in children :: c.attempts
  }

  ghost function DeliveredOf(children: seq<Transport>): (had: map<Transport, seq<Event>>)
    reads children
    ensures forall c :: c in children ==> c in had
  {
    map c | c in children :: c.delivered
  }

  function Repeated(e: Event, n: nat): (es: seq<Event>) {
    if n == 0 then [] else Repeated(e, n - 1) + [e]
  }

  /** What child `c` has seen after the first `n` offers. */
  ghost predicate Offered(children: seq<Transport>, was: map<Transport, nat>, had: map<Transport, seq<Event>>, e: Event, n: nat,
                          c: Transport, attempts: nat, delivered: seq<Event>)
    requires n <= |children| && Covers(was, children)
  {
    && c in was && c in had
    && attempts == was[c] + Offers(children, n, c)
    && delivered == had[c] + Repeated(e, Takes(children, was, e, n, c))
  }

  lemma OfferedNext(children: seq<Transport>, was: map<Transport, nat>, had: map<Transport, seq<Event>>, e: Event, n: nat,
                    c: Transport, attempts: nat, delivered: seq<Event>)
    requires n < |children| && Covers(was, children) && Offered(children, was, had, e, n, c, attempts, delivered)
    ensures children[n] != c ==> Offered(children, was, had, e, n + 1, c, attempts, delivered)
    ensures children[n] == c ==>
      var error := children[n].outcomes(attempts, e);
      && error == OfferFate(children, was, e, n)
      && Offered(children, was, had, e, n + 1, c, attempts + 1, if error.None? then delivered + [e] else delivered)
  {
    if children[n] == c { Joined(had[c], Repeated(e, Takes(children, was, e, n, c)), [e]); }
  }

  /** Offer the event to every child, even after a failure, and report the first error. A child listed twice is
      offered the event twice; each adds it once for every offer that it took. */
  method FanOut(children: seq<Transport>, e: Event) returns (first: Option<string>)
    modifies children
    ensures var was, had, n := old(AttemptsOf(children)), old(DeliveredOf(children)), |children|;
      && first == FirstFailure(children, was, e, n)
      && forall k :: 0 <= k < n ==>
           Offered(children, was, had, e, n, children[k], children[k].attempts, children[k].delivered)
  {
    first := None;
    ghost var was, had := AttemptsOf(children), DeliveredOf(children);
    for i := 0 to |children|
      invariant first == FirstFailure(children, was, e, i)
      invariant forall k :: 0 <= k < |children| ==>
        Offered(children, was, had, e, i, children[k], children[k].attempts, children[k].delivered)
    {
      var error := OfferNext(children, i, e, was, had);
      if error.Some? && first.None? {
        first := error;
      }
    }
  }

  /** One turn of the loop. */
  method OfferNext(children: seq<Transport>, i: nat, e: Event, ghost was: map<Transport, nat>, ghost had: map<Transport, seq<Event>>)
    returns (error: Option<string>)
    requires i < |children| && Covers(was, children)
    requires forall k :: 0 <= k < |children| ==>
      Offered(children, was, had, e, i, children[k], children[k].attempts, children[k].delivered)
    modifies children[i]
    ensures error == OfferFate(children, was, e, i)
    ensures forall k :: 0 <= k < |children| ==>
      Offered(children, was, had, e, i + 1, children[k], children[k].attempts, children[k].delivered)
  {
    error := children[i].Publish(e);
    forall k | 0 <= k < |children|
      ensures Offered(children, was, had, e, i + 1, children[k], children[k].attempts, children[k].delivered)
    {
      OfferedNext(children, was, had, e, i, children[k], old(children[k].attempts), old(children[k].delivered));
    }
    OfferedNext(children, was, had, e, i, children[i], old(children[i].attempts), old(children[i].delivered));
  }

  datatype Dialled = Connected(bus: Transport) | Refused(error: string)

  class ResilientBus {
    var bus: Transport
    var lastError: Option<string>

    constructor (initial: Transport)
      ensures bus == initial && lastError == None
    {
      bus := initial;
      lastError := None;
    }

    /** One attempt; on failure one dial and one more attempt, never more. `dialled` is what a dial would give. */
    method Publish(e: Event, dialled: Dialled) returns (error: Option<string>, attempts: nat, dials: nat)
      modifies this, bus, if dialled.Connected? then {dialled.bus} else {}
      ensures var failed := old(bus.outcomes(bus.attempts, e)).Some?;
        && dials == (if failed then 1 else 0)
        && attempts == (if failed && dialled.Connected? then 2 else 1)
        && error == if !failed then None else match dialled
                    case Refused(reason) => Some(reason)
                    case Connected(nb) => nb.outcomes(old(nb.attempts) + (if nb == old(bus) then 1 else 0), e)
      ensures lastError == if error.Some? then error else old(lastError)
      ensures bus == if dials == 1 && dialled.Connected? then dialled.bus else old(bus)
      ensures old(bus).attempts + (if dialled.Connected? && dialled.bus != old(bus) then dialled.bus.attempts else 0)
           == old(bus.attempts) + (if dialled.Connected? && dialled.bus != old(bus) then old(dialled.bus.attempts) else 0)
              + attempts
    {
      dials := 0;
      var err := bus.Publish(e);
      attempts := 1;
      if err.None? {
        return None, attempts, dials;
      }
      dials := 1;
      match dialled
      case Refused(reason) =>
        lastError := Some(reason);
        error := lastError;
      case Connected(nb) =>
        bus := nb;
        error := nb.Publish(e);
        attempts := 2;
        if error.Some? {
          lastError := error;
        }
    }
  }
}
