/** When the rebuilt state depends on arrival order: exactly when points that tie at the top disagree. */
module Ties {
  import opened Collections
  import opened Schemas
  import VehicleStates
  import opened Sorting
  import opened Rebuild

  // ---------------------------------------------------------------- any order, any view

  /** Nothing kept exceeds `x`, which is kept itself. */
  ghost predicate Top<T(!new)>(a: seq<T>, less: (T, T) -> bool, keep: T -> bool, x: T) {
    x in a && keep(x) && forall y :: y in a && keep(y) ==> !less(x, y)
  }

  ghost predicate TopsAgree<T(!new), V>(a: seq<T>, less: (T, T) -> bool, keep: T -> bool, view: T -> V) {
    forall x, y :: Top(a, less, keep, x) && Top(a, less, keep, y) ==> view(x) == view(y)
  }

  /** What the newest kept element shows. */
  function Shown<T, V>(a: seq<T>, less: (T, T) -> bool, keep: T -> bool, view: T -> V): Option<V> {
    var kept := Filter(a, keep);
    if kept == [] then None else Some(view(Newest(kept, less)))
  }

  lemma ShownIsTop<T(!new)>(a: seq<T>, less: (T, T) -> bool, keep: T -> bool)
    requires WeakOrder(less) && Filter(a, keep) != []
    ensures Top(a, less, keep, Newest(Filter(a, keep), less))
  {
    var kept := Filter(a, keep);
    FilterMembers(a, keep);
    var k := NewestIsLastMaximum(kept, less);
    assert kept[k] in kept;
    forall y | y in kept ensures !less(kept[k], y) {
      var i :| 0 <= i < |kept| && kept[i] == y;
    }
  }

  function MovedLast<T>(a: seq<T>, i: nat): (b: seq<T>)
    requires i < |a|
  {
    a[..i] + a[i + 1..] + [a[i]]
  }

  lemma MovedPermutes<T>(a: seq<T>, i: nat)
    requires i < |a|
    ensures multiset(MovedLast(a, i)) == multiset(a)
  {
    assert a == a[..i] + [a[i]] + a[i + 1..];
  }

  /** A top element that arrives last is shown. */
  lemma LastTopIsShown<T(!new), V>(front: seq<T>, x: T, less: (T, T) -> bool, keep: T -> bool, view: T -> V)
    requires WeakOrder(less) && Top(front + [x], less, keep, x)
    ensures Shown(front + [x], less, keep, view) == Some(view(x))
  {
    FilterNext(front, x, keep);
    var kept := Filter(front, keep);
    Prefixed(kept, x);
    if kept != [] {
      ShownIsTop(front, less, keep);
      assert Newest(kept, less) in front + [x];
    }
  }

  lemma SameTops<T(!new)>(a: seq<T>, b: seq<T>, less: (T, T) -> bool, keep: T -> bool, x: T)
    requires multiset(a) == multiset(b)
    ensures Top(a, less, keep, x) <==> Top(b, less, keep, x)
  {
    forall y ensures y in a <==> y in b {
      SameMembers(a, b, y);
    }
  }

  /** Whatever top element you pick, some arrival order shows it. */
  lemma TopCanBeShown<T(!new), V>(a: seq<T>, less: (T, T) -> bool, keep: T -> bool, view: T -> V, x: T) returns (b: seq<T>)
    requires WeakOrder(less) && Top(a, less, keep, x)
    ensures multiset(b) == multiset(a) && Shown(b, less, keep, view) == Some(view(x))
  {
    var i :| 0 <= i < |a| && a[i] == x;
    b := MovedLast(a, i);
    MovedPermutes(a, i);
    SameTops(a, b, less, keep, x);
    LastTopIsShown(a[..i] + a[i + 1..], x, less, keep, view);
  }

  lemma SomeKept<T(!new)>(a: seq<T>, b: seq<T>, keep: T -> bool)
    requires multiset(a) == multiset(b) && Filter(a, keep) != []
    ensures Filter(b, keep) != []
  {
    var x := Filter(a, keep)[0];
    assert x in Filter(a, keep);
    FilterMembers(a, keep);
    FilterMembers(b, keep);
    SameMembers(a, b, x);
  }

  lemma AgreeingTopsShowTheSame<T(!new), V>(a: seq<T>, b: seq<T>, less: (T, T) -> bool, keep: T -> bool, view: T -> V)
    requires WeakOrder(less) && TopsAgree(a, less, keep, view) && multiset(a) == multiset(b)
    ensures Shown(a, less, keep, view) == Shown(b, less, keep, view)
  {
    if Filter(b, keep) != [] { SomeKept(b, a, keep); }
    if Filter(a, keep) != [] {
      SomeKept(a, b, keep);
      ShownIsTop(a, less, keep);
      ShownIsTop(b, less, keep);
      SameTops(a, b, less, keep, Newest(Filter(b, keep), less));
    }
  }

  /** All arrival orders show the same exactly when all top elements look the same. */
  lemma ShownIff<T(!new), V>(a: seq<T>, less: (T, T) -> bool, keep: T -> bool, view: T -> V)
    requires WeakOrder(less)
    ensures (forall b :: multiset(b) == multiset(a) ==> Shown(b, less, keep, view) == Shown(a, less, keep, view))
       <==> TopsAgree(a, less, keep, view)
  {
    if forall b :: multiset(b) == multiset(a) ==> Shown(b, less, keep, view) == Shown(a, less, keep, view) {
      forall x, y | Top(a, less, keep, x) && Top(a, less, keep, y) ensures view(x) == view(y) {
        var b := TopCanBeShown(a, less, keep, view, x);
        var c := TopCanBeShown(a, less, keep, view, y);
      }
    }
    if TopsAgree(a, less, keep, view) {
      forall b | multiset(b) == multiset(a) ensures Shown(b, less, keep, view) == Shown(a, less, keep, view) {
        AgreeingTopsShowTheSame(a, b, less, keep, view);
      }
    }
  }

  // ---------------------------------------------------------------- what a rebuilt state shows

  function All(): Telemetry -> bool {
    (_: Telemetry) => true
  }

  function HasIgnition(): Telemetry -> bool {
    (t: Telemetry) => t.ignition.Some?
  }

  function Reading(): Telemetry -> (Location, Option<real>) {
    (t: Telemetry) => (t.location, t.speedKmh)
  }

  function TenantOf(): Telemetry -> string {
    (t: Telemetry) => t.tenantId
  }

  function IgnitionOf(): Telemetry -> Option<bool> {
    (t: Telemetry) => t.ignition
  }

  lemma {:induction false} FilterAll(a: seq<Telemetry>)
    ensures Filter(a, All()) == a
  {
    if a != [] {
      FilterAll(a[..|a| - 1]);
      SplitLast(a);
    }
  }

  lemma InsertBefore<T>(s: seq<T>, last: T, x: T, less: (T, T) -> bool)
    ensures Insert(s + [last], x, less) == if less(x, last) then Insert(s, x, less) + [last] else s + [last] + [x]
  {
    Prefixed(s, last);
  }

  lemma SortNext<T>(s: seq<T>, x: T, less: (T, T) -> bool)
    ensures Sort(s + [x], less) == Insert(Sort(s, less), x, less)
  {
    Prefixed(s, x);
  }

  lemma {:induction false} InsertFilter<T(!new)>(s: seq<T>, x: T, less: (T, T) -> bool, keep: T -> bool)
    requires WeakOrder(less) && Ordered(s, less)
    ensures Filter(Insert(s, x, less), keep) == if keep(x) then Insert(Filter(s, keep), x, less) else Filter(s, keep)
  {
    if s == [] {
      FilterNext([], x, keep);
    } else if less(x, s[|s| - 1]) {
      var front, last := s[..|s| - 1], s[|s| - 1];
      SplitLast(s);
      InsertFilter(front, x, less, keep);
      InsertBefore(front, last, x, less);
      FilterNext(Insert(front, x, less), last, keep);
      FilterNext(front, last, keep);
      InsertBefore(Filter(front, keep), last, x, less);
    } else {
      SplitLast(s);
      InsertBefore(s[..|s| - 1], s[|s| - 1], x, less);
      FilterNext(s, x, keep);
      LastKept(s, x, less, keep);
    }
  }

  /** What is not before the end of an ordered list is not before the end of what is kept of it. */
  lemma LastKept<T(!new)>(s: seq<T>, x: T, less: (T, T) -> bool, keep: T -> bool)
    requires WeakOrder(less) && Ordered(s, less) && s != [] && !less(x, s[|s| - 1])
    ensures Insert(Filter(s, keep), x, less) == Filter(s, keep) + [x]
  {
    var kept := Filter(s, keep);
    FilterMembers(s, keep);
    if kept != [] {
      var last := kept[|kept| - 1];
      assert last in kept && last in s;
      var i :| 0 <= i < |s| && s[i] == last;
      assert i == |s| - 1 || !less(s[|s| - 1], s[i]);
    }
  }

  /** A stable sort and a filter commute. */
  lemma {:induction false} SortFilter<T(!new)>(s: seq<T>, less: (T, T) -> bool, keep: T -> bool)
    requires WeakOrder(less)
    ensures Filter(Sort(s, less), keep) == Sort(Filter(s, keep), less)
  {
    if s != [] {
      var n := |s| - 1;
      SplitLast(s);
      SortFilter(s[..n], less, keep);
      SortPermutes(s[..n], less);
      InsertFilter(Sort(s[..n], less), s[n], less, keep);
      FilterNext(s[..n], s[n], keep);
      SortNext(s[..n], s[n], less);
      SortNext(Filter(s[..n], keep), s[n], less);
    }
  }

  /** In time order ignition is the one last reported. */
  lemma {:induction false} IgnitionInOrder(s: seq<Telemetry>)
    requires TimesSet(s) && Ordered(s, Earlier())
    ensures var kept := Filter(s, HasIgnition());
      ApplyAll(s).ignition == if kept == [] then None else kept[|kept| - 1].ignition
  {
    if s != [] {
      var front, t := s[..|s| - 1], s[|s| - 1];
      SplitLast(s);
      LastInOrder(s);
      IgnitionInOrder(front);
      FilterNext(front, t, HasIgnition());
    }
  }

  /** The last point of a list in time order is on time. */
  lemma LastInOrder(s: seq<Telemetry>)
    requires TimesSet(s) && Ordered(s, Earlier()) && s != []
    ensures var front, t := s[..|s| - 1], s[|s| - 1];
      && TimesSet(front) && Ordered(front, Earlier())
      && ApplyAll(s).motion == VehicleStates.Classify(ApplyAll(front).motion, t)
      && ApplyAll(s).ignition == if t.ignition.Some? then t.ignition else ApplyAll(front).ignition
  {
    var n := |s| - 1;
    SplitLast(s);
    if n > 0 {
      StateShowsNewest(s[..n]);
      NewestOfOrdered(s[..n], Earlier());
      assert !Earlier()(s[n], s[n - 1]);
    }
    assert !VehicleStates.Late(ApplyAll(s[..n]), s[n]);
  }

  lemma RebuiltShows(a: seq<Telemetry>)
    requires a != [] && TimesSet(a)
    ensures var s := Rebuilt(a);
      && Shown(a, Earlier(), All(), Reading()) == Some((Location(s.lat, s.lng), s.speedKmh))
      && Shown(a, Earlier(), All(), TenantOf()) == Some(s.tenantId)
  {
    FilterAll(a);
    RebuiltShowsNewest(a);
    SortPermutes(a, Earlier());
    NewestOfSort(a, Earlier());
    NewestOfOrdered(Sort(a, Earlier()), Earlier());
  }

  lemma RebuiltIgnition(a: seq<Telemetry>)
    requires TimesSet(a)
    ensures Shown(a, Earlier(), HasIgnition(), IgnitionOf())
         == if Rebuilt(a).ignition.None? then None else Some(Rebuilt(a).ignition)
  {
    var sorted := Sort(a, Earlier());
    SortPermutes(a, Earlier());
    SamePoints(a, sorted);
    IgnitionInOrder(sorted);
    LastOfSorted(a, Earlier(), HasIgnition());
    if Filter(a, HasIgnition()) != [] {
      ShownIsTop(a, Earlier(), HasIgnition());
    }
  }

  /** The last kept element after sorting is the newest kept element. */
  lemma LastOfSorted<T(!new)>(a: seq<T>, less: (T, T) -> bool, keep: T -> bool)
    requires WeakOrder(less)
    ensures var kept, sorted := Filter(a, keep), Filter(Sort(a, less), keep);
      |sorted| == |kept| && (kept != [] ==> sorted[|sorted| - 1] == Newest(kept, less))
  {
    var kept := Filter(a, keep);
    SortFilter(a, less, keep);
    if kept != [] {
      SortPermutes(kept, less);
      NewestOfSort(kept, less);
      NewestOfOrdered(Sort(kept, less), less);
    }
  }

  lemma SamePoints(a: seq<Telemetry>, b: seq<Telemetry>)
    requires multiset(a) == multiset(b) && TimesSet(a)
    ensures TimesSet(b) && |a| == |b|
  {
    assert |a| == |multiset(a)| == |multiset(b)| == |b|;
    forall t | t in b ensures t.timestamp != 0 {
      assert t in multiset(b) && t in multiset(a);
    }
  }

  lemma SameLastSeen(a: seq<Telemetry>, b: seq<Telemetry>)
    requires multiset(a) == multiset(b) && TimesSet(a) && a != []
    ensures b != [] && Rebuilt(a).lastSeen == Rebuilt(b).lastSeen
  {
    SamePoints(a, b);
    RebuiltShowsNewest(a);
    RebuiltShowsNewest(b);
    FilterAll(a);
    FilterAll(b);
    ShownIsTop(a, Earlier(), All());
    ShownIsTop(b, Earlier(), All());
    var x, y := Newest(a, Earlier()), Newest(b, Earlier());
    SameTops(a, b, Earlier(), All(), x);
    SameTops(a, b, Earlier(), All(), y);
    assert !Earlier()(x, y) && !Earlier()(y, x);
  }

  /** `x` has the greatest event time of the log. */
  ghost predicate AtTheTop(a: seq<Telemetry>, x: Telemetry) {
    Top(a, Earlier(), All(), x)
  }

  /** `x` has the greatest event time among the points that report ignition. */
  ghost predicate LastReport(a: seq<Telemetry>, x: Telemetry) {
    Top(a, Earlier(), HasIgnition(), x)
  }

  lemma ReadingIsShown(a: seq<Telemetry>, b: seq<Telemetry>)
    requires a != [] && TimesSet(a) && multiset(b) == multiset(a)
    ensures SameReading(Rebuilt(a), Rebuilt(b)) <==>
      Shown(b, Earlier(), All(), Reading()) == Shown(a, Earlier(), All(), Reading())
  {
    SamePoints(a, b);
    RebuiltShows(a);
    RebuiltShows(b);
    SameLastSeen(a, b);
  }

  lemma TenantIsShown(a: seq<Telemetry>, b: seq<Telemetry>)
    requires a != [] && TimesSet(a) && multiset(b) == multiset(a)
    ensures Rebuilt(a).tenantId == Rebuilt(b).tenantId <==>
      Shown(b, Earlier(), All(), TenantOf()) == Shown(a, Earlier(), All(), TenantOf())
  {
    SamePoints(a, b);
    RebuiltShows(a);
    RebuiltShows(b);
  }

  lemma IgnitionIsShown(a: seq<Telemetry>, b: seq<Telemetry>)
    requires TimesSet(a) && multiset(b) == multiset(a)
    ensures Rebuilt(a).ignition == Rebuilt(b).ignition <==>
      Shown(b, Earlier(), HasIgnition(), IgnitionOf()) == Shown(a, Earlier(), HasIgnition(), IgnitionOf())
  {
    SamePoints(a, b);
    RebuiltIgnition(a);
    RebuiltIgnition(b);
  }

  /** The rebuilt position and speed are the same for every arrival order if and only if all points at the greatest
      event time agree on them. */
  lemma ReadingIgnoresOrderIff(a: seq<Telemetry>)
    requires a != [] && TimesSet(a)
    ensures (forall b :: multiset(b) == multiset(a) ==> SameReading(Rebuilt(a), Rebuilt(b)))
       <==> (forall x, y :: AtTheTop(a, x) && AtTheTop(a, y) ==> x.location == y.location && x.speedKmh == y.speedKmh)
  {
    ShownIff(a, Earlier(), All(), Reading());
    forall b | multiset(b) == multiset(a)
      ensures SameReading(Rebuilt(a), Rebuilt(b)) <==>
        Shown(b, Earlier(), All(), Reading()) == Shown(a, Earlier(), All(), Reading())
    {
      ReadingIsShown(a, b);
    }
    TopReadings(a);
  }

  lemma TopReadings(a: seq<Telemetry>)
    ensures TopsAgree(a, Earlier(), All(), Reading())
       <==> (forall x, y :: AtTheTop(a, x) && AtTheTop(a, y) ==> x.location == y.location && x.speedKmh == y.speedKmh)
  {
    assert forall x, y :: Reading()(x) == Reading()(y) <==> x.location == y.location && x.speedKmh == y.speedKmh;
  }

  lemma TopTenants(a: seq<Telemetry>)
    ensures TopsAgree(a, Earlier(), All(), TenantOf())
       <==> (forall x, y :: AtTheTop(a, x) && AtTheTop(a, y) ==> x.tenantId == y.tenantId)
  {
  }

  lemma TopIgnitions(a: seq<Telemetry>)
    ensures TopsAgree(a, Earlier(), HasIgnition(), IgnitionOf())
       <==> (forall x, y :: LastReport(a, x) && LastReport(a, y) ==> x.ignition == y.ignition)
  {
  }

  /** The same for the tenant. */
  lemma TenantIgnoresOrderIff(a: seq<Telemetry>)
    requires a != [] && TimesSet(a)
    ensures (forall b :: multiset(b) == multiset(a) ==> Rebuilt(a).tenantId == Rebuilt(b).tenantId)
       <==> (forall x, y :: AtTheTop(a, x) && AtTheTop(a, y) ==> x.tenantId == y.tenantId)
  {
    ShownIff(a, Earlier(), All(), TenantOf());
    forall b | multiset(b) == multiset(a)
      ensures Rebuilt(a).tenantId == Rebuilt(b).tenantId <==>
        Shown(b, Earlier(), All(), TenantOf()) == Shown(a, Earlier(), All(), TenantOf())
    {
      TenantIsShown(a, b);
    }
    TopTenants(a);
  }

  /** And for ignition, over the last points that report it. */
  lemma IgnitionIgnoresOrderIff(a: seq<Telemetry>)
    requires TimesSet(a)
    ensures (forall b :: multiset(b) == multiset(a) ==> Rebuilt(a).ignition == Rebuilt(b).ignition)
       <==> (forall x, y :: LastReport(a, x) && LastReport(a, y) ==> x.ignition == y.ignition)
  {
    ShownIff(a, Earlier(), HasIgnition(), IgnitionOf());
    forall b | multiset(b) == multiset(a)
      ensures Rebuilt(a).ignition == Rebuilt(b).ignition <==>
        Shown(b, Earlier(), HasIgnition(), IgnitionOf()) == Shown(a, Earlier(), HasIgnition(), IgnitionOf())
    {
      IgnitionIsShown(a, b);
    }
    TopIgnitions(a);
  }

  // ---------------------------------------------------------------- motion

  /** Outside the band a point decides whether the vehicle moves ... */
  function Decides(): Telemetry -> bool {
    (t: Telemetry) => OutsideBand(t)
  }

  function IsFast(): Telemetry -> bool {
    (t: Telemetry) => t.speedKmh.Some? && t.speedKmh.value > VehicleStates.MOVING_THRESHOLD
  }

  /** ... and a slow point, or one in the band that reports ignition, tells idle from stopped. */
  function Settles(): Telemetry -> bool {
    (t: Telemetry) =>
      && t.speedKmh.Some? && t.speedKmh.value <= VehicleStates.MOVING_THRESHOLD
      && (t.speedKmh.value < VehicleStates.STOPPED_THRESHOLD || t.ignition.Some?)
  }

  function IsOn(): Telemetry -> bool {
    (t: Telemetry) => t.ignition == Some(true)
  }

  function LastView(kept: seq<Telemetry>, view: Telemetry -> bool): Option<bool> {
    if kept == [] then None else Some(view(kept[|kept| - 1]))
  }

  /** Motion from the last deciding point and the last settling one. */
  function MotionFrom(fast: Option<bool>, on: Option<bool>): VehicleStates.Motion {
    if fast == Some(true) then VehicleStates.Moving
    else match on
      case None => VehicleStates.Unknown
      case Some(b) => if b then VehicleStates.Idle else VehicleStates.Stopped
  }

  /** One more on-time point. */
  lemma MotionStep(prev: VehicleStates.Motion, fast: Option<bool>, on: Option<bool>, t: Telemetry)
    requires prev == MotionFrom(fast, on) || (prev == VehicleStates.Unset && fast == None && on == None)
    ensures VehicleStates.Classify(prev, t)
         == MotionFrom(if Decides()(t) then Some(IsFast()(t)) else fast, if Settles()(t) then Some(IsOn()(t)) else on)
  {
  }

  lemma LastViewNext(front: seq<Telemetry>, t: Telemetry, keep: Telemetry -> bool, view: Telemetry -> bool)
    ensures LastView(Filter(front + [t], keep), view) == if keep(t) then Some(view(t)) else LastView(Filter(front, keep), view)
  {
    FilterNext(front, t, keep);
  }

  /** In time order motion is what the last deciding and the last settling point say. */
  lemma {:induction false} MotionInOrder(s: seq<Telemetry>)
    requires TimesSet(s) && Ordered(s, Earlier())
    ensures var fast, on := LastView(Filter(s, Decides()), IsFast()), LastView(Filter(s, Settles()), IsOn());
      if s == [] then ApplyAll(s).motion == VehicleStates.Unset && fast == None && on == None
      else ApplyAll(s).motion == MotionFrom(fast, on)
  {
    if s != [] {
      var front, t := s[..|s| - 1], s[|s| - 1];
      SplitLast(s);
      LastInOrder(s);
      MotionInOrder(front);
      LastViewNext(front, t, Decides(), IsFast());
      LastViewNext(front, t, Settles(), IsOn());
      MotionStep(ApplyAll(front).motion, LastView(Filter(front, Decides()), IsFast()),
                 LastView(Filter(front, Settles()), IsOn()), t);
    }
  }

  lemma SortedView(a: seq<Telemetry>, keep: Telemetry -> bool, view: Telemetry -> bool)
    ensures LastView(Filter(Sort(a, Earlier()), keep), view) == Shown(a, Earlier(), keep, view)
  {
    LastOfSorted(a, Earlier(), keep);
  }

  lemma RebuiltMotion(a: seq<Telemetry>)
    requires a != [] && TimesSet(a)
    ensures Rebuilt(a).motion == MotionFrom(Shown(a, Earlier(), Decides(), IsFast()), Shown(a, Earlier(), Settles(), IsOn()))
  {
    SortPermutes(a, Earlier());
    SamePoints(a, Sort(a, Earlier()));
    MotionInOrder(Sort(a, Earlier()));
    SortedView(a, Decides(), IsFast());
    SortedView(a, Settles(), IsOn());
  }

  /** The last deciding points are all fast or all slow; and unless they are fast, the last settling points agree on
      whether the ignition is on. */
  ghost predicate MotionTiesAgree(a: seq<Telemetry>) {
    && TopsAgree(a, Earlier(), Decides(), IsFast())
    && (TopsAgree(a, Earlier(), Settles(), IsOn()) || exists x :: Top(a, Earlier(), Decides(), x) && IsFast()(x))
  }

  lemma FastTopShown(a: seq<Telemetry>)
    requires TopsAgree(a, Earlier(), Decides(), IsFast())
    ensures Shown(a, Earlier(), Decides(), IsFast()) == Some(true) <==> exists x :: Top(a, Earlier(), Decides(), x) && IsFast()(x)
  {
    if Filter(a, Decides()) != [] {
      ShownIsTop(a, Earlier(), Decides());
    } else {
      FilterMembers(a, Decides());
    }
  }

  lemma AgreeingMotion(a: seq<Telemetry>, b: seq<Telemetry>)
    requires a != [] && TimesSet(a) && multiset(b) == multiset(a) && MotionTiesAgree(a)
    ensures Rebuilt(a).motion == Rebuilt(b).motion
  {
    SamePoints(a, b);
    RebuiltMotion(a);
    RebuiltMotion(b);
    FastTopShown(a);
    AgreeingTopsShowTheSame(a, b, Earlier(), Decides(), IsFast());
    if TopsAgree(a, Earlier(), Settles(), IsOn()) {
      AgreeingTopsShowTheSame(a, b, Earlier(), Settles(), IsOn());
    }
  }

  /** A deciding point at the top settles whether the vehicle moves, when it arrives last. */
  lemma DecidingLast(a: seq<Telemetry>, x: Telemetry) returns (b: seq<Telemetry>)
    requires a != [] && TimesSet(a) && Top(a, Earlier(), Decides(), x)
    ensures multiset(b) == multiset(a) && (Rebuilt(b).motion == VehicleStates.Moving <==> IsFast()(x))
  {
    b := TopCanBeShown(a, Earlier(), Decides(), IsFast(), x);
    SamePoints(a, b);
    RebuiltMotion(b);
  }

  /** A settling point at the top tells idle from stopped, when it arrives last and the vehicle does not move. */
  lemma SettlingLast(a: seq<Telemetry>, x: Telemetry) returns (b: seq<Telemetry>)
    requires a != [] && TimesSet(a) && Top(a, Earlier(), Settles(), x)
    ensures multiset(b) == multiset(a)
    ensures Rebuilt(b).motion != VehicleStates.Moving ==>
      Rebuilt(b).motion == if IsOn()(x) then VehicleStates.Idle else VehicleStates.Stopped
  {
    b := TopCanBeShown(a, Earlier(), Settles(), IsOn(), x);
    SamePoints(a, b);
    RebuiltMotion(b);
  }

  lemma SteadyMotionAgrees(a: seq<Telemetry>)
    requires a != [] && TimesSet(a) && forall b :: multiset(b) == multiset(a) ==> Rebuilt(a).motion == Rebuilt(b).motion
    ensures MotionTiesAgree(a)
  {
    forall x, y | Top(a, Earlier(), Decides(), x) && Top(a, Earlier(), Decides(), y) ensures IsFast()(x) == IsFast()(y) {
      var b := DecidingLast(a, x);
      var c := DecidingLast(a, y);
    }
    FastTopShown(a);
    RebuiltMotion(a);
    if Rebuilt(a).motion != VehicleStates.Moving {
      forall x, y | Top(a, Earlier(), Settles(), x) && Top(a, Earlier(), Settles(), y) ensures IsOn()(x) == IsOn()(y) {
        var b := SettlingLast(a, x);
        var c := SettlingLast(a, y);
      }
    }
  }

  /** The rebuilt motion is the same for every arrival order if and only if the last deciding points, and unless they
      are fast the last settling ones, agree. */
  lemma MotionIgnoresOrderIff(a: seq<Telemetry>)
    requires a != [] && TimesSet(a)
    ensures (forall b :: multiset(b) == multiset(a) ==> Rebuilt(a).motion == Rebuilt(b).motion) <==> MotionTiesAgree(a)
  {
    if MotionTiesAgree(a) {
      forall b | multiset(b) == multiset(a) ensures Rebuilt(a).motion == Rebuilt(b).motion {
        AgreeingMotion(a, b);
      }
    }
    if forall b :: multiset(b) == multiset(a) ==> Rebuilt(a).motion == Rebuilt(b).motion {
      SteadyMotionAgrees(a);
    }
  }

  // ---------------------------------------------------------------- the whole state

  /** Every tie that matters is between points that agree on what it decides. */
  ghost predicate TiesAgree(a: seq<Telemetry>) {
    && (forall x, y :: AtTheTop(a, x) && AtTheTop(a, y) ==>
          x.location == y.location && x.speedKmh == y.speedKmh && x.tenantId == y.tenantId)
    && (forall x, y :: LastReport(a, x) && LastReport(a, y) ==> x.ignition == y.ignition)
    && MotionTiesAgree(a)
  }

  ghost predicate OneVehicle(a: seq<Telemetry>, v: string) {
    forall t :: t in a ==> t.vehicleId == v
  }

  lemma {:induction false} OtherFields(s: seq<Telemetry>, v: string)
    requires OneVehicle(s, v)
    ensures ApplyAll(s).tripId == "" && ApplyAll(s).geofences == [] && (s != [] ==> ApplyAll(s).vehicleId == v)
  {
    if s != [] {
      OtherFields(s[..|s| - 1], v);
      SplitLast(s);
    }
  }

  lemma RebuiltOtherFields(a: seq<Telemetry>, v: string)
    requires OneVehicle(a, v) && a != [] && TimesSet(a)
    ensures Rebuilt(a).tripId == "" && Rebuilt(a).geofences == [] && Rebuilt(a).vehicleId == v
    ensures Rebuilt(a).presence == VehicleStates.Online
  {
    SortPermutes(a, Earlier());
    forall t | t in Sort(a, Earlier()) ensures t.vehicleId == v {
      SameMembers(a, Sort(a, Earlier()), t);
    }
    OtherFields(Sort(a, Earlier()), v);
    RebuiltShowsNewest(a);
  }

  /** Two rebuilds of the same points of a vehicle are equal exactly when these fields are. */
  lemma FieldsDecide(a: seq<Telemetry>, b: seq<Telemetry>, v: string)
    requires a != [] && TimesSet(a) && OneVehicle(a, v) && multiset(b) == multiset(a)
    ensures var r, q := Rebuilt(a), Rebuilt(b);
      r == q <==> SameReading(r, q) && r.tenantId == q.tenantId && r.ignition == q.ignition && r.motion == q.motion
  {
    SamePoints(a, b);
    forall t | t in b ensures t.vehicleId == v {
      SameMembers(a, b, t);
    }
    RebuiltOtherFields(a, v);
    RebuiltOtherFields(b, v);
  }

  /** The whole rebuilt state of a vehicle is the same for every arrival order of its points if and only if every tie
      that matters is between points that agree. */
  lemma RebuiltIgnoresOrderIff(a: seq<Telemetry>, v: string)
    requires a != [] && TimesSet(a) && OneVehicle(a, v)
    ensures (forall b :: multiset(b) == multiset(a) ==> Rebuilt(a) == Rebuilt(b)) <==> TiesAgree(a)
  {
    forall b | multiset(b) == multiset(a)
      ensures Rebuilt(a) == Rebuilt(b) <==>
        && SameReading(Rebuilt(a), Rebuilt(b)) && Rebuilt(a).tenantId == Rebuilt(b).tenantId
        && Rebuilt(a).ignition == Rebuilt(b).ignition && Rebuilt(a).motion == Rebuilt(b).motion
    {
      FieldsDecide(a, b, v);
    }
    ReadingIgnoresOrderIff(a);
    TenantIgnoresOrderIff(a);
    IgnitionIgnoresOrderIff(a);
    MotionIgnoresOrderIff(a);
  }
}
