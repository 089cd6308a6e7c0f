/** Taking work in flight out of the planning problem and putting it back into the repaired plan
    (scheduler/repair.py). */
module Repair {
  import opened Collections
  import opened Domain
  import opened Invariants
  import D = Diff

  // -------------------------------------------------------------- what is locked

  /** `sorted` ids of the work that is physically fixed. */
  method LockedJobs(world: World) returns (locked: seq<JobId>)
    requires WellKeyed(world)
    ensures forall id :: id in locked <==> IsLocked(world, id)
    ensures Distinct(locked) && SortedBy(locked, StringLe)
  {
    locked := SortedKeys(set k | k in world.jobs && IsLocked(world, k) :: world.jobs[k].id);
  }

  /** The last stop of a route whose job is locked. */
  function LastLocked(stops: seq<Stop>, locked: set<JobId>): (r: Option<nat>)
    ensures r.Some? ==>
              && r.value < |stops| && stops[r.value].jobId in locked
              && forall j :: r.value < j < |stops| ==> stops[j].jobId !in locked
    ensures r.None? ==> forall j :: 0 <= j < |stops| ==> stops[j].jobId !in locked
  {
    if stops == [] then None
    else if stops[|stops| - 1].jobId in locked then Some(|stops| - 1)
    else LastLocked(stops[..|stops| - 1], locked)
  }

  /** The part of a route that has been driven: up to its last locked stop, and no drive home. */
  function DrivenPart(route: Route, last: nat): Route
    requires last < |route.stops|
  {
    route.(stops := route.stops[..last + 1], returnMinutes := 0, returnMiles := 0.0)
  }

  /** The driven part of every route that has one. */
  function Carried(routes: seq<Route>, locked: set<JobId>): (r: seq<Route>)
    ensures forall i :: 0 <= i < |r| ==> r[i].stops != [] && r[i].returnMinutes == 0
  {
    if routes == [] then []
    else
      var route := routes[|routes| - 1];
      var last := LastLocked(route.stops, locked);
      var rest := Carried(routes[..|routes| - 1], locked);
      if last.None? then rest else rest + [DrivenPart(route, last.value)]
  }

  // ---------------------------------------------------------- the reduced world

  type Outages = map<string, seq<Unavailability>>

  /** From leaving the depot until the last stop is done. */
  function Busy(route: Route): Unavailability
    requires route.stops != []
  {
    Unavailability(route.stops[0].arrival - route.stops[0].travelMinutes,
                   Some(route.stops[|route.stops| - 1].departure), "already dispatched")
  }

  function AddToEach(outages: Outages, keys: seq<string>, outage: Unavailability): Outages {
    if keys == [] then outages
    else
      var before, key := AddToEach(outages, keys[..|keys| - 1], outage), keys[|keys| - 1];
      before[key := GetOr(before, key, []) + [outage]]
  }

  /** Each claimed worker or van is taken for as long as the routes that claim it are busy. */
  function Consumed(kind: Resource, carried: seq<Route>): Outages
    requires forall i :: 0 <= i < |carried| ==> carried[i].stops != []
  {
    if carried == [] then map[]
    else
      var route := carried[|carried| - 1];
      AddToEach(Consumed(kind, carried[..|carried| - 1]), Claims(kind, route), Busy(route))
  }

  function Joined(outages: Outages, more: Outages): Outages {
    map k | k in outages.Keys + more.Keys :: GetOr(outages, k, []) + GetOr(more, k, [])
  }

  /** The world left to plan: carried jobs are gone, carried crews and vans are taken. */
  function Reduced(world: World, carried: seq<Route>): World
    requires forall i :: 0 <= i < |carried| ==> carried[i].stops != []
  {
    world.(jobs := map k | k in world.jobs && k !in RoutedJobs(carried) :: world.jobs[k],
           workerOutages := Joined(world.workerOutages, Consumed(OfWorkers, carried)),
           vanOutages := Joined(world.vanOutages, Consumed(OfVans, carried)))
  }

  /** Of the world nothing is gone but the carried jobs, and nothing is otherwise than it was but the outages. */
  lemma ReducedKeepsTheRest(world: World, carried: seq<Route>, id: JobId)
    requires forall i :: 0 <= i < |carried| ==> carried[i].stops != []
    ensures Get(Reduced(world, carried).jobs, id) == if OnSomeRoute(carried, id) then None else Get(world.jobs, id)
    ensures Reduced(world, carried) == world.(jobs := Reduced(world, carried).jobs,
                                              workerOutages := Reduced(world, carried).workerOutages,
                                              vanOutages := Reduced(world, carried).vanOutages)
  {
    RoutedJobsMembers(carried, id);
  }

  /** `setdefault(key, []).append(outage)` for each key. */
  method Consume(outages: Outages, keys: seq<string>, outage: Unavailability) returns (r: Outages)
    ensures r == AddToEach(outages, keys, outage)
  {
    r := outages;
    for k := 0 to |keys|
      invariant r == AddToEach(outages, keys[..k], outage)
    {
      assert keys[..k + 1][..k] == keys[..k];
      r := r[keys[k] := GetOr(r, keys[k], []) + [outage]];
    }
    assert keys[..|keys|] == keys;
  }

  method CarveOutLocked(world: World, baseline: Plan, locked: set<JobId>)
    returns (reduced: World, carried: seq<Route>)
    ensures carried == Carried(baseline.routes, locked)
    ensures reduced == Reduced(world, carried)
  {
    var routes := baseline.routes;
    var consumedWorkers: Outages := map[];
    var consumedVans: Outages := map[];
    var removed: seq<JobId> := [];
    carried := [];
    for i := 0 to |routes|
      invariant carried == Carried(routes[..i], locked)
      invariant removed == RoutedJobs(carried)
      invariant consumedWorkers == Consumed(OfWorkers, carried)
      invariant consumedVans == Consumed(OfVans, carried)
    {
      assert routes[..i + 1][..i] == routes[..i];
      var route := routes[i];
      var last := LastLocked(route.stops, locked);
      if last.Some? {
        var part := DrivenPart(route, last.value);
        assert (carried + [part])[..|carried|] == carried;
        var outage := Busy(part);
        consumedWorkers := Consume(consumedWorkers, route.workerIds, outage);
        consumedVans := Consume(consumedVans, [route.vanId], outage);
        removed := removed + StopJobs(part.stops);
        carried := carried + [part];
      }
    }
    assert routes[..|routes|] == routes;
    reduced := world.(jobs := map k | k in world.jobs && k !in removed :: world.jobs[k],
                      workerOutages := Joined(world.workerOutages, consumedWorkers),
                      vanOutages := Joined(world.vanOutages, consumedVans));
  }

  // --------------------------------------------- the outages say exactly "no clash"

  lemma {:induction false} AddedToEach(outages: Outages, keys: seq<string>, outage: Unavailability, key: string,
      a: Moment, b: Moment)
    ensures NoneCovers(GetOr(AddToEach(outages, keys, outage), key, []), a, b) <==>
            NoneCovers(GetOr(outages, key, []), a, b) && (key in keys ==> !Covers(outage, a, b))
    decreases |keys|
  {
    if keys != [] {
      var n := |keys| - 1;
      AddedToEach(outages, keys[..n], outage, key, a, b);
      assert key in keys <==> key in keys[..n] || key == keys[n];
      if key == keys[n] {
        NoneCoversMore(GetOr(AddToEach(outages, keys[..n], outage), key, []), [outage], a, b);
        assert NoneCovers([outage], a, b) <==> !Covers([outage][0], a, b);
      }
    }
  }

  lemma NoneCoversMore(some: seq<Unavailability>, more: seq<Unavailability>, a: Moment, b: Moment)
    ensures NoneCovers(some + more, a, b) <==> NoneCovers(some, a, b) && NoneCovers(more, a, b)
  {
    if NoneCovers(some + more, a, b) {
      forall i | 0 <= i < |some| ensures !Covers(some[i], a, b) { assert (some + more)[i] == some[i]; }
      forall i | 0 <= i < |more| ensures !Covers(more[i], a, b) { assert (some + more)[|some| + i] == more[i]; }
    }
  }

  predicate FreeOf(kind: Resource, carried: Route, key: string, a: Moment, b: Moment) {
    key in Claims(kind, carried) && carried.stops != [] ==> !Covers(Busy(carried), a, b)
  }

  lemma {:induction false} ConsumedCovers(kind: Resource, carried: seq<Route>, key: string, a: Moment, b: Moment)
    requires forall i :: 0 <= i < |carried| ==> carried[i].stops != []
    ensures NoneCovers(GetOr(Consumed(kind, carried), key, []), a, b) <==> AllFreeOf(kind, carried, key, a, b)
    decreases |carried|
  {
    if carried != [] {
      var n := |carried| - 1;
      ConsumedCovers(kind, carried[..n], key, a, b);
      AddedToEach(Consumed(kind, carried[..n]), Claims(kind, carried[n]), Busy(carried[n]), key, a, b);
      AllFreeOfSnoc(kind, carried, key, a, b);
    }
  }

  predicate AllFreeOf(kind: Resource, carried: seq<Route>, key: string, a: Moment, b: Moment)
    requires forall i :: 0 <= i < |carried| ==> carried[i].stops != []
  {
    forall i :: 0 <= i < |carried| ==> FreeOf(kind, carried[i], key, a, b)
  }

  lemma AllFreeOfSnoc(kind: Resource, carried: seq<Route>, key: string, a: Moment, b: Moment)
    requires carried != [] && forall i :: 0 <= i < |carried| ==> carried[i].stops != []
    ensures var n := |carried| - 1;
            AllFreeOf(kind, carried, key, a, b) <==>
            AllFreeOf(kind, carried[..n], key, a, b) && FreeOf(kind, carried[n], key, a, b)
  {
    assert forall i :: 0 <= i < |carried| - 1 ==> carried[..|carried| - 1][i] == carried[i];
  }

  lemma JoinedCovers(outages: Outages, more: Outages, key: string, a: Moment, b: Moment)
    ensures NoneCovers(GetOr(Joined(outages, more), key, []), a, b) <==>
            NoneCovers(GetOr(outages, key, []), a, b) && NoneCovers(GetOr(more, key, []), a, b)
  {
    NoneCoversMore(GetOr(outages, key, []), GetOr(more, key, []), a, b);
  }

  predicate ClashFree(kind: Resource, carried: seq<Route>, route: Route) {
    forall i :: 0 <= i < |carried| ==> !Clash(kind, carried[i], route)
  }

  /** A carried route clashes with a new one exactly when its busy stretch covers one of its resources. */
  lemma ClashIsBusy(kind: Resource, carried: Route, route: Route)
    requires carried.stops != [] && carried.returnMinutes == 0 && route.stops != []
    ensures var (a, b) := RouteSpan(route).value;
            !Clash(kind, carried, route) <==>
            forall j :: 0 <= j < |Claims(kind, route)| ==> FreeOf(kind, carried, Claims(kind, route)[j], a, b)
  {
    var (a, b) := RouteSpan(route).value;
    var mine, theirs := Claims(kind, route), Claims(kind, carried);
    if Clash(kind, carried, route) {
      var i, j :| 0 <= i < |theirs| && 0 <= j < |mine| && theirs[i] == mine[j];
      assert !FreeOf(kind, carried, mine[j], a, b);
    }
    if j :| 0 <= j < |mine| && !FreeOf(kind, carried, mine[j], a, b) {
      var i :| 0 <= i < |theirs| && theirs[i] == mine[j];
      assert Shares(kind, carried, route);
    }
  }

  ghost predicate AreDriven(carried: seq<Route>) {
    forall i :: 0 <= i < |carried| ==> carried[i].stops != [] && carried[i].returnMinutes == 0
  }

  lemma ClaimsFree(kind: Resource, outages: Outages, carried: seq<Route>, route: Route)
    requires AreDriven(carried) && route.stops != []
    ensures var (a, b) := RouteSpan(route).value;
            var claims := Claims(kind, route);
            (forall j :: 0 <= j < |claims| ==>
               NoneCovers(GetOr(Joined(outages, Consumed(kind, carried)), claims[j], []), a, b))
            <==>
            && (forall j :: 0 <= j < |claims| ==> NoneCovers(GetOr(outages, claims[j], []), a, b))
            && ClashFree(kind, carried, route)
  {
    var (a, b) := RouteSpan(route).value;
    var claims := Claims(kind, route);
    forall i | 0 <= i < |carried|
      ensures !Clash(kind, carried[i], route) <==>
              forall j :: 0 <= j < |claims| ==> FreeOf(kind, carried[i], claims[j], a, b)
    {
      ClashIsBusy(kind, carried[i], route);
    }
    forall j | 0 <= j < |claims|
      ensures NoneCovers(GetOr(Joined(outages, Consumed(kind, carried)), claims[j], []), a, b) <==>
              && NoneCovers(GetOr(outages, claims[j], []), a, b)
              && forall i :: 0 <= i < |carried| ==> FreeOf(kind, carried[i], claims[j], a, b)
    {
      JoinedCovers(outages, Consumed(kind, carried), claims[j], a, b);
      ConsumedCovers(kind, carried, claims[j], a, b);
    }
  }

  /** A route fits the reduced world's outages exactly when it fits the real ones and takes nobody and
      nothing from the carried routes while they are busy. */
  lemma ReducedSaysExactly(world: World, carried: seq<Route>, route: Route)
    requires AreDriven(carried) && route.stops != []
    requires forall j :: 0 <= j < |route.workerIds| ==> route.workerIds[j] in world.workers
    requires route.vanId in world.vans
    ensures ResourcesAvailable(route, Reduced(world, carried)) <==>
            && ResourcesAvailable(route, world)
            && ClashFree(OfWorkers, carried, route)
            && ClashFree(OfVans, carried, route)
  {
    ClaimsFree(OfWorkers, world.workerOutages, carried, route);
    ClaimsFree(OfVans, world.vanOutages, carried, route);
    var (a, b) := RouteSpan(route).value;
    assert Claims(OfVans, route)[0] == route.vanId;
    AvailableByClaims(world, route);
    AvailableByClaims(Reduced(world, carried), route);
  }

  lemma AvailableByClaims(world: World, route: Route)
    requires route.stops != []
    requires forall j :: 0 <= j < |route.workerIds| ==> route.workerIds[j] in world.workers
    requires route.vanId in world.vans
    ensures var (a, b) := RouteSpan(route).value;
            ResourcesAvailable(route, world) <==>
            && (forall j :: 0 <= j < |Claims(OfWorkers, route)| ==>
                  NoneCovers(GetOr(world.workerOutages, Claims(OfWorkers, route)[j], []), a, b))
            && (forall j :: 0 <= j < |Claims(OfVans, route)| ==>
                  NoneCovers(GetOr(world.vanOutages, Claims(OfVans, route)[j], []), a, b))
  {
    var (a, b) := RouteSpan(route).value;
    assert IsVanAvailable(world, route.vanId, a, b) <==>
           NoneCovers(GetOr(world.vanOutages, Claims(OfVans, route)[0], []), a, b);
    assert forall j :: 0 <= j < |route.workerIds| ==>
             (IsWorkerAvailable(world, route.workerIds[j], a, b) <==>
              NoneCovers(GetOr(world.workerOutages, Claims(OfWorkers, route)[j], []), a, b));
  }

  // ------------------------------------------------------- carrying adds no clash

  /** Each stop takes some time and starts after the one before it ends. */
  predicate Chronological(route: Route) {
    && (forall j :: 0 <= j < |route.stops| ==> route.stops[j].arrival <= route.stops[j].departure)
    && (forall i, j :: 0 <= i < j < |route.stops| ==> route.stops[i].departure <= route.stops[j].arrival)
  }

  lemma DrivenPartIsShorter(route: Route, last: nat)
    requires last < |route.stops| && Chronological(route)
    ensures RouteSpan(DrivenPart(route, last)).value.0 == RouteSpan(route).value.0
    ensures RouteSpan(route).value.0 <= RouteSpan(DrivenPart(route, last)).value.1 <= RouteSpan(route).value.1
  {
    var n := |route.stops| - 1;
    assert route.stops[last].departure <= route.stops[n].departure by {
      if last < n {
        assert route.stops[last].departure <= route.stops[n].arrival;
      }
    }
    assert route.stops[0].arrival <= route.stops[last].departure by {
      if 0 < last {
        assert route.stops[0].departure <= route.stops[last].arrival;
      }
    }
  }

  lemma DrivenPartClashesLess(kind: Resource, route: Route, last: nat, other: Route)
    requires last < |route.stops| && Chronological(route)
    ensures Clash(kind, DrivenPart(route, last), other) ==> Clash(kind, route, other)
    ensures Clash(kind, other, DrivenPart(route, last)) ==> Clash(kind, other, route)
    ensures SelfClash(kind, DrivenPart(route, last)) ==> SelfClash(kind, route)
  {
    DrivenPartIsShorter(route, last);
    var part := DrivenPart(route, last);
    assert Claims(kind, part) == Claims(kind, route);
    if Shares(kind, part, other) {
      var i, j :| 0 <= i < |Claims(kind, part)| && 0 <= j < |Claims(kind, other)|
        && Claims(kind, part)[i] == Claims(kind, other)[j];
      assert Claims(kind, route)[i] == Claims(kind, other)[j];
    }
    if Shares(kind, other, part) {
      var i, j :| 0 <= i < |Claims(kind, other)| && 0 <= j < |Claims(kind, part)|
        && Claims(kind, other)[i] == Claims(kind, part)[j];
      assert Claims(kind, other)[i] == Claims(kind, route)[j];
    }
  }

  lemma {:induction false} CarriedStayClear(kind: Resource, routes: seq<Route>, locked: set<JobId>, other: Route)
    requires forall i :: 0 <= i < |routes| ==> Chronological(routes[i]) && !Clash(kind, routes[i], other)
    ensures ClashFree(kind, Carried(routes, locked), other)
    decreases |routes|
  {
    if routes != [] {
      var n := |routes| - 1;
      CarriedStayClear(kind, routes[..n], locked, other);
      var last := LastLocked(routes[n].stops, locked);
      if last.Some? {
        DrivenPartClashesLess(kind, routes[n], last.value, other);
      }
    }
  }

  lemma {:induction false} CarriedStayExclusive(kind: Resource, routes: seq<Route>, locked: set<JobId>)
    requires Exclusive(kind, routes) && forall i :: 0 <= i < |routes| ==> Chronological(routes[i])
    ensures Exclusive(kind, Carried(routes, locked))
    decreases |routes|
  {
    if routes != [] {
      var n := |routes| - 1;
      CarriedStayExclusive(kind, routes[..n], locked);
      var last := LastLocked(routes[n].stops, locked);
      if last.Some? {
        var part := DrivenPart(routes[n], last.value);
        forall i | 0 <= i < n ensures !Clash(kind, routes[..n][i], part) {
          assert !Clash(kind, routes[i], routes[n]);
          DrivenPartClashesLess(kind, routes[n], last.value, routes[i]);
        }
        CarriedStayClear(kind, routes[..n], locked, part);
        DrivenPartClashesLess(kind, routes[n], last.value, part);
        assert !SelfClash(kind, routes[n]);
      }
    }
  }

  lemma ExclusiveTogether(kind: Resource, carried: seq<Route>, planned: seq<Route>)
    requires Exclusive(kind, carried) && Exclusive(kind, planned)
    requires forall j :: 0 <= j < |planned| ==> ClashFree(kind, carried, planned[j])
    ensures Exclusive(kind, carried + planned)
  {
    var all, n := carried + planned, |carried|;
    forall i | 0 <= i < |all| ensures !SelfClash(kind, all[i]) {
      assert all[i] == if i < n then carried[i] else planned[i - n];
    }
    forall i, j | 0 <= i < j < |all| ensures !Clash(kind, all[i], all[j]) {
      if n <= j {
        assert ClashFree(kind, carried, planned[j - n]);
      }
    }
  }

  // ------------------------------------------------------ no job on both sides

  lemma {:induction false} CarriedJobsAreRouted(routes: seq<Route>, locked: set<JobId>)
    requires Distinct(RoutedJobs(routes))
    ensures Distinct(RoutedJobs(Carried(routes, locked)))
    ensures forall id :: id in RoutedJobs(Carried(routes, locked)) ==> id in RoutedJobs(routes)
    decreases |routes|
  {
    if routes != [] {
      var n := |routes| - 1;
      var front, back := RoutedJobs(routes[..n]), StopJobs(routes[n].stops);
      SplitDistinct(front, back);
      CarriedJobsAreRouted(routes[..n], locked);
      var last := LastLocked(routes[n].stops, locked);
      if last.Some? {
        var part := DrivenPart(routes[n], last.value);
        var carried := Carried(routes[..n], locked);
        assert (carried + [part])[..|carried|] == carried;
        assert StopJobs(part.stops) == back[..last.value + 1];
        forall i, j | 0 <= i < |RoutedJobs(carried)| && 0 <= j < |StopJobs(part.stops)|
          ensures RoutedJobs(carried)[i] != StopJobs(part.stops)[j]
        {
          assert RoutedJobs(carried)[i] in front;
        }
        DistinctConcat(RoutedJobs(carried), StopJobs(part.stops));
      }
    }
  }

  /** Routes over the reduced world's jobs share none with the carried routes. */
  lemma NoJobTwice(world: World, carried: seq<Route>, planned: seq<Route>)
    requires AreDriven(carried) && Distinct(RoutedJobs(carried)) && Distinct(RoutedJobs(planned))
    requires forall i :: 0 <= i < |planned| ==> ReferencesOk(planned[i], Reduced(world, carried))
    ensures Distinct(RoutedJobs(carried + planned))
  {
    RoutedJobsJoin(carried, planned);
    forall i, j | 0 <= i < |RoutedJobs(carried)| && 0 <= j < |RoutedJobs(planned)|
      ensures RoutedJobs(carried)[i] != RoutedJobs(planned)[j]
    {
      var id := RoutedJobs(planned)[j];
      RoutedJobsMembers(planned, id);
      var k :| 0 <= k < |planned| && id in StopJobs(planned[k].stops);
      assert id in Reduced(world, carried).jobs;
      assert RoutedJobs(carried)[i] in RoutedJobs(carried);
    }
    DistinctConcat(RoutedJobs(carried), RoutedJobs(planned));
  }

  // -------------------------------------------------------- locked work stays put

  lemma {:induction false} FirstStopJoin(a: seq<Stop>, b: seq<Stop>, job: JobId)
    ensures FirstStop(a + b, job) == if FirstStop(a, job).Some? then FirstStop(a, job) else FirstStop(b, job)
  {
    if a == [] {
      assert a + b == b;
    } else {
      assert (a + b)[1..] == a[1..] + b;
      FirstStopJoin(a[1..], b, job);
    }
  }

  lemma {:induction false} StopForJoin(a: seq<Route>, b: seq<Route>, job: JobId)
    ensures StopFor(a + b, job) == if StopFor(a, job).Some? then StopFor(a, job) else StopFor(b, job)
  {
    if a == [] {
      assert a + b == b;
    } else {
      assert (a + b)[1..] == a[1..] + b;
      StopForJoin(a[1..], b, job);
    }
  }

  /** The driven part of a route keeps every locked stop, in place. */
  lemma DrivenPartKeepsLocked(stops: seq<Stop>, locked: set<JobId>, job: JobId)
    requires job in locked
    ensures FirstStop(stops, job) ==
            match LastLocked(stops, locked) case None => None case Some(n) => FirstStop(stops[..n + 1], job)
  {
    var last := LastLocked(stops, locked);
    if last.Some? {
      assert stops == stops[..last.value + 1] + stops[last.value + 1..];
      FirstStopJoin(stops[..last.value + 1], stops[last.value + 1..], job);
    }
  }

  /** The carried routes hold a locked job where the baseline first had it, with the same crew. */
  predicate SamePlace(was: Option<(Route, Stop)>, now: Option<(Route, Stop)>) {
    match was
    case None => now.None?
    case Some(w) => now.Some? && now.value.1 == w.1 && now.value.0.workerIds == w.0.workerIds
  }

  lemma {:induction false} CarriedHoldsLocked(routes: seq<Route>, locked: set<JobId>, job: JobId)
    requires job in locked
    ensures SamePlace(StopFor(routes, job), StopFor(Carried(routes, locked), job))
    decreases |routes|
  {
    if routes != [] {
      var n := |routes| - 1;
      var route, rest := routes[n], Carried(routes[..n], locked);
      CarriedHoldsLocked(routes[..n], locked, job);
      assert routes == routes[..n] + [route];
      StopForJoin(routes[..n], [route], job);
      DrivenPartKeepsLocked(route.stops, locked, job);
      assert StopFor([route], job)
          == if FirstStop(route.stops, job).Some? then Some((route, FirstStop(route.stops, job).value)) else None;
      var last := LastLocked(route.stops, locked);
      if last.Some? {
        var part := DrivenPart(route, last.value);
        StopForJoin(rest, [part], job);
        assert StopFor([part], job)
            == if FirstStop(part.stops, job).Some? then Some((part, FirstStop(part.stops, job).value)) else None;
      }
    }
  }

  /** Whatever is planned around them, the carried routes keep every locked job unmoved, exactly when the
      baseline did not already contradict itself about one. */
  lemma CarryingMovesNothing(world: World, baseline: seq<Route>, locked: set<JobId>, planned: seq<Route>)
    requires forall id :: id in locked <==> IsLocked(world, id)
    ensures LockedUnmoved(Carried(baseline, locked) + planned, baseline, world) <==>
            LockedUnmoved(baseline, baseline, world)
  {
    var all := Carried(baseline, locked) + planned;
    forall i, j | 0 <= i < |baseline| && 0 <= j < |baseline[i].stops| && IsLocked(world, baseline[i].stops[j].jobId)
      ensures Unmoved(all, baseline[i], baseline[i].stops[j]) <==> Unmoved(baseline, baseline[i], baseline[i].stops[j])
    {
      var job := baseline[i].stops[j].jobId;
      CarriedHoldsLocked(baseline, locked, job);
      StopForJoin(Carried(baseline, locked), planned, job);
      assert baseline[i].stops[j] in baseline[i].stops;
    }
  }

  /** A plan without duplicate jobs never contradicts itself. */
  lemma DistinctPlanAgrees(world: World, baseline: seq<Route>)
    requires Distinct(RoutedJobs(baseline))
    ensures LockedUnmoved(baseline, baseline, world)
  {
    forall i, j | 0 <= i < |baseline| && 0 <= j < |baseline[i].stops|
      ensures Unmoved(baseline, baseline[i], baseline[i].stops[j])
    {
      var stop := baseline[i].stops[j];
      var found := StopFor(baseline, stop.jobId);
      assert stop in baseline[i].stops;
      var k :| 0 <= k < |baseline| && baseline[k] == found.value.0;
      var l :| 0 <= l < |baseline[k].stops| && baseline[k].stops[l] == found.value.1;
      D.OnlyStopIsThePlacement(baseline, i, j);
      D.OnlyStopIsThePlacement(baseline, k, l);
    }
  }

  // ------------------------------------------------------------ route by route

  ghost predicate EachOk(routes: seq<Route>, world: World, travel: Travel, config: Config) {
    forall i :: 0 <= i < |routes| ==> RouteOk(routes[i], world, travel, config)
  }

  lemma JoinPasses(world: World, travel: Travel, config: Config, carried: seq<Route>, planned: seq<Route>)
    requires forall i :: 0 <= i < |planned| ==> RouteOk(planned[i], world, travel, config)
    ensures EachOk(carried + planned, world, travel, config) <==> EachOk(carried, world, travel, config)
  {
    assert forall i :: 0 <= i < |carried| ==> (carried + planned)[i] == carried[i];
  }
}
