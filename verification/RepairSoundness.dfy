/** What a repaired plan is worth: carried work beside a plan for the rest, in the world as it has become
    (scheduler/repair.py, domain/state.py, service.py). */
module RepairSoundness {
  import opened Collections
  import opened Domain
  import opened Invariants
  import opened Repair
  import opened Traffic
  import E = EventFold
  import FoldLaws

  // ------------------------------------------------------- records that moved on

  /** While a job is under way only its duration, commitment and deferrals change, and it is promised no more. */
  predicate MovedOn(was: Job, now: Job) {
    && now == was.(duration := now.duration, commitment := now.commitment, deferrals := now.deferrals)
    && (now.commitment.Confirmed? ==> was.commitment.Confirmed?)
  }

  predicate JobMovedOn(id: JobId, was: World, now: World) {
    id in was.jobs && id in now.jobs && MovedOn(was.jobs[id], now.jobs[id])
  }

  /** The route's jobs have moved on, and its crew and van are the same. */
  predicate Kept(route: Route, was: World, now: World) {
    && (forall i :: 0 <= i < |route.stops| ==> JobMovedOn(route.stops[i].jobId, was, now))
    && (forall i :: 0 <= i < |route.workerIds| ==>
          && route.workerIds[i] in was.workers && route.workerIds[i] in now.workers
          && was.workers[route.workerIds[i]] == now.workers[route.workerIds[i]])
    && route.vanId in was.vans && route.vanId in now.vans && was.vans[route.vanId] == now.vans[route.vanId]
  }

  lemma {:induction false} SameLoads(stops: seq<Stop>, was: World, now: World)
    requires forall i :: 0 <= i < |stops| ==> JobMovedOn(stops[i].jobId, was, now)
    ensures PanesOn(stops, was) == PanesOn(stops, now)
    ensures forall part :: DemandOn(stops, was, part) == DemandOn(stops, now, part)
    decreases |stops|
  {
    if stops != [] {
      SameLoads(stops[..|stops| - 1], was, now);
      assert JobMovedOn(stops[|stops| - 1].jobId, was, now);
    }
  }

  predicate SameJob(id: JobId, world: World, less: World) {
    id in world.jobs && id in less.jobs && world.jobs[id] == less.jobs[id]
  }

  // -------------------------------------------------- the routes that were replanned

  /** What a route says of its jobs, crew and van is the same in the real world as in the reduced one. */
  lemma PassesInTheRealWorld(
    world: World, carried: seq<Route>, route: Route, travel: Travel, config: Config)
    requires AreDriven(carried) && RouteOk(route, Reduced(world, carried), travel, config)
    ensures RouteOk(route, world, travel, config)
    ensures route.stops != [] ==> ClashFree(OfWorkers, carried, route) && ClashFree(OfVans, carried, route)
  {
    var less := Reduced(world, carried);
    forall i | 0 <= i < |route.stops| ensures SameJob(route.stops[i].jobId, world, less) {
    }
    if route.stops != [] {
      ReducedSaysExactly(world, carried, route);
    }
    JobsReadTheSame(world, less, route, travel, config);
    forall i | 0 <= i < |route.stops| ensures JobMovedOn(route.stops[i].jobId, world, less) {
      assert SameJob(route.stops[i].jobId, world, less);
    }
    SameLoads(route.stops, world, less);
  }

  lemma JobsReadTheSame(world: World, less: World, route: Route, travel: Travel, config: Config)
    requires less.workers == world.workers && less.vans == world.vans
    requires forall i :: 0 <= i < |route.stops| ==> SameJob(route.stops[i].jobId, world, less)
    ensures CrewFit(route, world) <==> CrewFit(route, less)
    ensures LegsOk(route, world, travel, config.slack) <==> LegsOk(route, less, travel, config.slack)
    ensures WindowsOk(route, world, config.released) <==> WindowsOk(route, less, config.released)
    ensures MaterialsOk(route, world) <==> MaterialsOk(route, less)
  {
    var stops := route.stops;
    AllStopsKnown(stops, world);
    AllStopsKnown(stops, less);
    assert Held(world, route.workerIds) == Held(less, route.workerIds);
    forall i | 0 <= i < |stops|
      ensures StopFit(stops[i], route, world) <==> StopFit(stops[i], route, less)
      ensures StopInWindow(stops[i], world, config.released) <==> StopInWindow(stops[i], less, config.released)
      ensures MaterialsReady(stops[i], route.date, world) <==> MaterialsReady(stops[i], route.date, less)
    {
      assert SameJob(stops[i].jobId, world, less);
    }
    forall i | 0 <= i < |stops|
      ensures LegOk(route, Before(stops, i), stops[i], world, travel, config.slack) <==>
              LegOk(route, Before(stops, i), stops[i], less, travel, config.slack)
    {
      assert SameJob(stops[i].jobId, world, less);
      assert i > 0 ==> SameJob(stops[i - 1].jobId, world, less);
    }
  }

  // ------------------------------------------------------- the part that was driven

  lemma {:induction false} FewerStopsLoadLess(stops: seq<Stop>, m: nat, world: World)
    requires m <= |stops|
    ensures PanesOn(stops[..m], world) <= PanesOn(stops, world)
    ensures forall part :: DemandOn(stops[..m], world, part) <= DemandOn(stops, world, part)
    decreases |stops|
  {
    if m == |stops| {
      assert stops[..m] == stops;
    } else {
      FewerStopsLoadLess(stops[..|stops| - 1], m, world);
      assert stops[..|stops| - 1][..m] == stops[..m];
    }
  }

  lemma LegTakesItsTime(route: Route, previous: Option<Stop>, stop: Stop, world: World, travel: Travel, slack: nat)
    requires stop.jobId in world.jobs && (previous.Some? ==> previous.value.jobId in world.jobs)
    requires LegOk(route, previous, stop, world, travel, slack)
    ensures stop.arrival <= stop.departure
    ensures previous.Some? ==> previous.value.departure <= stop.arrival
  {
  }

  /** Stops that pass the recomputation are in order. */
  lemma LegsAreChronological(route: Route, world: World, travel: Travel, slack: nat)
    requires ReferencesOk(route, world) && LegsOk(route, world, travel, slack)
    ensures Chronological(route)
  {
    var stops := route.stops;
    AllStopsKnown(stops, world);
    forall j: nat | j < |stops|
      ensures stops[j].arrival <= stops[j].departure
      ensures j > 0 ==> stops[j - 1].departure <= stops[j].arrival
    {
      LegTakesItsTime(route, Before(stops, j), stops[j], world, travel, slack);
    }
    forall i: nat, j: nat | i < j < |stops| ensures stops[i].departure <= stops[j].arrival {
      InOrder(stops, i, j);
    }
  }

  predicate ComesAfter(stops: seq<Stop>, j: nat)
    requires 0 < j < |stops|
  {
    stops[j - 1].departure <= stops[j].arrival
  }

  lemma {:induction false} InOrder(stops: seq<Stop>, i: nat, j: nat)
    requires forall k :: 0 <= k < |stops| ==> stops[k].arrival <= stops[k].departure
    requires forall k: nat :: 0 < k < |stops| ==> ComesAfter(stops, k)
    requires i < j < |stops|
    ensures stops[i].departure <= stops[j].arrival
    decreases j
  {
    assert ComesAfter(stops, j);
    if i < j - 1 {
      InOrder(stops, i, j - 1);
    }
  }

  /** This member may be out until `end`, read as a time of day: by overtime, or because the shift of the day
      the route starts on lasts that long. */
  predicate MemberMayEndAt(worker: Worker, begin: Moment, end: Moment, config: Config) {
    || (config.allowOvertime && worker.overtimeEligible)
    || var hours := HoursFor(worker, Weekday(DayOf(begin)));
       hours.Some? ==> ClockOf(end) <= hours.value.end
  }

  predicate MayEndAt(route: Route, end: Moment, world: World, config: Config)
    requires route.stops != []
  {
    forall i :: 0 <= i < |route.workerIds| && route.workerIds[i] in world.workers ==>
      MemberMayEndAt(world.workers[route.workerIds[i]], RouteSpan(route).value.0, end, config)
  }

  /** Every check but availability. */
  ghost predicate PassesOtherwise(route: Route, world: World, travel: Travel, config: Config) {
    && ReferencesOk(route, world) && CrewFit(route, world)
    && LegsOk(route, world, travel, config.slack) && WindowsOk(route, world, config.released)
    && HoursOk(route, world, config) && CapacityOk(route, world) && MaterialsOk(route, world)
  }

  /** A route that ends the day it starts can be cut at any time its crew may work. */
  lemma EndingTheSameDaySuffices(route: Route, last: nat, world: World, travel: Travel, config: Config)
    requires last < |route.stops| && PassesOtherwise(route, world, travel, config)
    requires DayOf(RouteSpan(route).value.0) == DayOf(RouteSpan(route).value.1)
    ensures MayEndAt(route, route.stops[last].departure, world, config)
  {
    LegsAreChronological(route, world, travel, config.slack);
    DrivenPartIsShorter(route, last);
    var whole, end := RouteSpan(route).value, route.stops[last].departure;
    assert ClockOf(end) <= ClockOf(whole.1);
    forall i | 0 <= i < |route.workerIds| && route.workerIds[i] in world.workers
      ensures MemberMayEndAt(world.workers[route.workerIds[i]], whole.0, end, config)
    {
      assert WithinHours(world.workers[route.workerIds[i]], whole, config);
    }
  }

  lemma DrivenPartFits(route: Route, part: Route, world: World, config: Config)
    requires part.workerIds == route.workerIds && part.date == route.date && part.vanId == route.vanId
    requires |part.stops| <= |route.stops| && forall i :: 0 <= i < |part.stops| ==> part.stops[i] == route.stops[i]
    requires CrewFit(route, world) && WindowsOk(route, world, config.released) && MaterialsOk(route, world)
    ensures CrewFit(part, world) && WindowsOk(part, world, config.released) && MaterialsOk(part, world)
  {
    forall i | 0 <= i < |part.stops|
      ensures StopFit(part.stops[i], part, world) && StopInWindow(part.stops[i], world, config.released)
        && MaterialsReady(part.stops[i], part.date, world)
    {
      assert StopFit(route.stops[i], route, world) && StopInWindow(route.stops[i], world, config.released)
        && MaterialsReady(route.stops[i], route.date, world);
    }
  }

  lemma DrivenPartDrives(route: Route, part: Route, world: World, travel: Travel, slack: nat)
    requires ReferencesOk(route, world) && LegsOk(route, world, travel, slack) && part.vanId == route.vanId
    requires |part.stops| <= |route.stops| && forall i :: 0 <= i < |part.stops| ==> part.stops[i] == route.stops[i]
    ensures LegsOk(part, world, travel, slack)
  {
    AllStopsKnown(route.stops, world);
    AllStopsKnown(part.stops, world);
    forall i | 0 <= i < |part.stops|
      ensures LegOk(part, Before(part.stops, i), part.stops[i], world, travel, slack)
    {
      assert LegOk(route, Before(route.stops, i), route.stops[i], world, travel, slack);
      assert Before(part.stops, i) == Before(route.stops, i);
    }
  }

  /** Every stop was given as long as its job is now said to take. */
  predicate SlotsLast(route: Route, world: World) {
    forall i :: 0 <= i < |route.stops| ==> SlotLasts(route.stops[i], world)
  }

  predicate SlotLasts(stop: Stop, world: World) {
    stop.jobId in world.jobs ==> stop.departure - stop.arrival >= world.jobs[stop.jobId].duration
  }

  /** Where the drive to stop `i` sets out from, and when, as the checker reads them. */
  function SetOutFrom(part: Route, i: nat, world: World): Location
    requires i < |part.stops| && ReferencesOk(part, world)
  {
    if i == 0 then world.vans[part.vanId].homeDepot else world.jobs[part.stops[i - 1].jobId].location
  }

  function SetOutAt(part: Route, i: nat): Moment
    requires i < |part.stops|
  {
    if i == 0 then part.stops[0].arrival - part.stops[0].travelMinutes else part.stops[i - 1].departure
  }

  function DriveTo(part: Route, i: nat, world: World, travel: Travel): nat
    requires i < |part.stops| && ReferencesOk(part, world)
  {
    travel(SetOutFrom(part, i, world), world.jobs[part.stops[i].jobId].location, SetOutAt(part, i)).minutes
  }

  /** The road to stop `i`, asked again, still gets there by the arrival it was given. */
  predicate RoadFits(part: Route, i: nat, world: World, travel: Travel, slack: nat)
    requires i < |part.stops| && ReferencesOk(part, world)
  {
    part.stops[i].arrival >= SetOutAt(part, i) + DriveTo(part, i, world, travel) - slack
  }

  /** So does every road driven. */
  predicate RoadsHold(part: Route, world: World, travel: Travel, slack: nat) {
    ReferencesOk(part, world) ==> forall i: nat :: i < |part.stops| ==> RoadFits(part, i, world, travel, slack)
  }

  /** Promises that were released to the checker before, and are no more, are kept. */
  predicate ReleasesStand(part: Route, world: World, earlier: set<JobId>, released: set<JobId>) {
    forall i :: 0 <= i < |part.stops| && IsFor(part.stops[i], world, earlier - released) ==>
      StopInWindow(part.stops[i], world, released)
  }

  predicate IsFor(stop: Stop, world: World, ids: set<JobId>) {
    stop.jobId in world.jobs && world.jobs[stop.jobId].id in ids
  }

  lemma PartPassesOtherwise(route: Route, last: nat, world: World, travel: Travel, config: Config)
    requires last < |route.stops| && PassesOtherwise(route, world, travel, config)
    ensures var part := DrivenPart(route, last);
            && CrewFit(part, world) && LegsOk(part, world, travel, config.slack)
            && WindowsOk(part, world, config.released) && CapacityOk(part, world) && MaterialsOk(part, world)
  {
    var part := DrivenPart(route, last);
    assert forall i :: 0 <= i < |part.stops| ==> part.stops[i] == route.stops[i];
    DrivenPartFits(route, part, world, config);
    DrivenPartDrives(route, part, world, travel, config.slack);
    FewerStopsLoadLess(route.stops, last + 1, world);
  }

  predicate LegHolds(part: Route, i: nat, world: World, travel: Travel, slack: nat)
    requires i < |part.stops| && ReferencesOk(part, world)
  {
    LegOk(part, Before(part.stops, i), part.stops[i], world, travel, slack)
  }

  lemma LegsOneByOne(part: Route, world: World, travel: Travel, slack: nat)
    requires ReferencesOk(part, world)
    ensures LegsOk(part, world, travel, slack) <==>
            forall i: nat :: i < |part.stops| ==> LegHolds(part, i, world, travel, slack)
  {
    AllStopsKnown(part.stops, world);
    if forall i: nat :: i < |part.stops| ==> LegHolds(part, i, world, travel, slack) {
      forall i | 0 <= i < |part.stops|
        ensures LegOk(part, Before(part.stops, i), part.stops[i], world, travel, slack)
      {
        assert LegHolds(part, i, world, travel, slack);
      }
    }
  }

  /** Legs that held still hold exactly when the slots still last and the roads still fit. */
  lemma LegsMoveOn(
    part: Route, was: World, now: World, before: Travel, after: Travel, allowed: nat, slack: nat)
    requires Kept(part, was, now) && LegsOk(part, was, before, allowed)
    ensures LegsOk(part, now, after, slack) <==> SlotsLast(part, now) && RoadsHold(part, now, after, slack)
  {
    PartIsNamed(part, was, now);
    LegsOneByOne(part, was, before, allowed);
    LegsOneByOne(part, now, after, slack);
    forall i: nat | i < |part.stops|
      ensures LegHolds(part, i, now, after, slack) <==>
              SlotLasts(part.stops[i], now) && RoadFits(part, i, now, after, slack)
    {
      LegMovesOn(part, i, was, now, before, after, allowed, slack);
    }
  }

  lemma LegMovesOn(
    part: Route, i: nat, was: World, now: World, before: Travel, after: Travel, allowed: nat, slack: nat)
    requires i < |part.stops| && ReferencesOk(part, was) && ReferencesOk(part, now)
    requires LegHolds(part, i, was, before, allowed)
    ensures LegHolds(part, i, now, after, slack) <==>
            SlotLasts(part.stops[i], now) && RoadFits(part, i, now, after, slack)
  {
  }

  lemma PartIsNamed(part: Route, was: World, now: World)
    requires Kept(part, was, now)
    ensures ReferencesOk(part, was) && ReferencesOk(part, now)
  {
    forall i | 0 <= i < |part.stops| ensures part.stops[i].jobId in was.jobs && part.stops[i].jobId in now.jobs {
      assert JobMovedOn(part.stops[i].jobId, was, now);
    }
  }

  /** Of stops that passed, only the windows of promises no longer released can fail. */
  lemma StopsMoveOn(part: Route, was: World, now: World, earlier: set<JobId>, released: set<JobId>)
    requires Kept(part, was, now)
    requires CrewFit(part, was) && WindowsOk(part, was, earlier) && MaterialsOk(part, was)
    ensures CrewFit(part, now) && MaterialsOk(part, now)
    ensures WindowsOk(part, now, released) <==> ReleasesStand(part, now, earlier, released)
  {
    assert Held(was, part.workerIds) == Held(now, part.workerIds);
    PartIsNamed(part, was, now);
    forall i | 0 <= i < |part.stops|
      ensures StopFit(part.stops[i], part, now) && MaterialsReady(part.stops[i], part.date, now)
      ensures !IsFor(part.stops[i], now, earlier - released) ==> StopInWindow(part.stops[i], now, released)
    {
      StopMovesOn(part, part.stops[i], was, now, earlier, released);
    }
  }

  lemma StopMovesOn(
    part: Route, stop: Stop, was: World, now: World, earlier: set<JobId>, released: set<JobId>)
    requires JobMovedOn(stop.jobId, was, now) && Held(was, part.workerIds) == Held(now, part.workerIds)
    requires StopFit(stop, part, was) && StopInWindow(stop, was, earlier)
    requires MaterialsReady(stop, part.date, was)
    ensures StopFit(stop, part, now) && MaterialsReady(stop, part.date, now)
    ensures !IsFor(stop, now, earlier - released) ==> StopInWindow(stop, now, released)
  {
    var job, before := now.jobs[stop.jobId], was.jobs[stop.jobId];
    if job.windows != [] && job.id !in earlier - released {
      var i :| 0 <= i < |before.windows| && Satisfies(before, before.windows[i], stop, earlier);
      assert Satisfies(job, job.windows[i], stop, released);
    }
  }

  lemma HoursMoveOn(route: Route, part: Route, was: World, now: World, earlier: Config, config: Config)
    requires route.stops != [] && part.stops != [] && part.workerIds == route.workerIds && Kept(part, was, now)
    requires RouteSpan(part).value.0 == RouteSpan(route).value.0 && HoursOk(route, was, earlier)
    ensures HoursOk(part, now, config) <==> MayEndAt(route, RouteSpan(part).value.1, now, config)
  {
    var whole, less := RouteSpan(route).value, RouteSpan(part).value;
    forall i | 0 <= i < |part.workerIds| && part.workerIds[i] in now.workers
      ensures WithinHours(now.workers[part.workerIds[i]], less, config) <==>
              MemberMayEndAt(now.workers[route.workerIds[i]], whole.0, less.1, config)
    {
      assert WithinHours(was.workers[route.workerIds[i]], whole, earlier);
    }
  }

  /** Of a route that once passed every check but availability, by the roads and the settings of then, the driven
      part passes them all by those of now exactly when every stop was given as long as its job is now said to take,
      every road driven still fits, no promise released before is asked for again and broken, nobody aboard was out
      while it was driven, and everyone may end where it ends. What became of the rest of the route does not matter. */
  lemma DrivenPartPassesIff(
    route: Route, last: nat, was: World, now: World, before: Travel, after: Travel, earlier: Config, config: Config)
    requires last < |route.stops| && PassesOtherwise(route, was, before, earlier)
    requires Kept(DrivenPart(route, last), was, now)
    ensures RouteOk(DrivenPart(route, last), now, after, config) <==>
            StillHolds(route, last, now, after, earlier.released, config)
  {
    var part := DrivenPart(route, last);
    PartPassesOtherwise(route, last, was, before, earlier);
    StopsMoveOn(part, was, now, earlier.released, config.released);
    LegsMoveOn(part, was, now, before, after, earlier.slack, config.slack);
    SameLoads(part.stops, was, now);
    HoursMoveOn(route, part, was, now, earlier, config);
    PartIsNamed(part, was, now);
  }

  predicate StillHolds(
    route: Route, last: nat, now: World, travel: Travel, earlier: set<JobId>, config: Config)
    requires last < |route.stops|
  {
    var part := DrivenPart(route, last);
    && SlotsLast(part, now) && RoadsHold(part, now, travel, config.slack)
    && ReleasesStand(part, now, earlier, config.released)
    && ResourcesAvailable(part, now)
    && MayEndAt(route, route.stops[last].departure, now, config)
  }

  /** In one world: only the outages and the hour at which it ends decide. */
  lemma DrivenPartPassesNow(route: Route, last: nat, world: World, travel: Travel, config: Config)
    requires last < |route.stops| && PassesOtherwise(route, world, travel, config)
    ensures RouteOk(DrivenPart(route, last), world, travel, config) <==>
            && ResourcesAvailable(DrivenPart(route, last), world)
            && MayEndAt(route, route.stops[last].departure, world, config)
  {
    DrivenPartPassesIff(route, last, world, world, travel, travel, config, config);
    PartPassesOtherwise(route, last, world, travel, config);
    LegsTakeTime(DrivenPart(route, last), world, travel, config.slack);
  }

  lemma LegsTakeTime(part: Route, world: World, travel: Travel, slack: nat)
    requires ReferencesOk(part, world) && LegsOk(part, world, travel, slack)
    ensures SlotsLast(part, world) && RoadsHold(part, world, travel, slack)
  {
    LegsOneByOne(part, world, travel, slack);
    forall i: nat | i < |part.stops|
      ensures SlotLasts(part.stops[i], world) && RoadFits(part, i, world, travel, slack)
    {
      LegMovesOn(part, i, world, world, travel, travel, slack, slack);
    }
  }

  // ------------------------------------------------------------ the repaired plan

  /** Which routes of a plan have work in flight. */
  predicate InFlight(route: Route, locked: set<JobId>) { LastLocked(route.stops, locked).Some? }

  ghost predicate DrivenOk(route: Route, locked: set<JobId>, world: World, travel: Travel, config: Config) {
    InFlight(route, locked) ==>
      RouteOk(DrivenPart(route, LastLocked(route.stops, locked).value), world, travel, config)
  }

  lemma EachOkSnoc(rest: seq<Route>, route: Route, world: World, travel: Travel, config: Config)
    ensures EachOk(rest + [route], world, travel, config) <==>
            EachOk(rest, world, travel, config) && RouteOk(route, world, travel, config)
  {
    assert forall i :: 0 <= i < |rest| ==> (rest + [route])[i] == rest[i];
    assert (rest + [route])[|rest|] == route;
  }

  ghost predicate EachDrivenOk(routes: seq<Route>, locked: set<JobId>, world: World, travel: Travel, config: Config) {
    forall i :: 0 <= i < |routes| ==> DrivenOk(routes[i], locked, world, travel, config)
  }

  lemma EachDrivenOkSnoc(routes: seq<Route>, locked: set<JobId>, world: World, travel: Travel, config: Config)
    requires routes != []
    ensures var n := |routes| - 1;
            EachDrivenOk(routes, locked, world, travel, config) <==>
            && EachDrivenOk(routes[..n], locked, world, travel, config)
            && DrivenOk(routes[n], locked, world, travel, config)
  {
    assert forall i :: 0 <= i < |routes| - 1 ==> routes[..|routes| - 1][i] == routes[i];
  }

  /** The carried routes are the driven parts, one for each route in flight. */
  lemma {:induction false} CarriedPassIff(
    routes: seq<Route>, locked: set<JobId>, world: World, travel: Travel, config: Config)
    ensures EachOk(Carried(routes, locked), world, travel, config) <==>
            EachDrivenOk(routes, locked, world, travel, config)
    decreases |routes|
  {
    if routes != [] {
      var n := |routes| - 1;
      CarriedPassIff(routes[..n], locked, world, travel, config);
      EachDrivenOkSnoc(routes, locked, world, travel, config);
      if InFlight(routes[n], locked) {
        var last := LastLocked(routes[n].stops, locked).value;
        EachOkSnoc(Carried(routes[..n], locked), DrivenPart(routes[n], last), world, travel, config);
      }
    }
  }

  /** Routes that pass the checker in the reduced world, put beside the carried ones: nobody is double-booked
      across the join, no job is on both sides and nothing locked moved, so the whole is valid in the real world
      exactly when the carried routes are. */
  lemma RepairIsSound(
    world: World, travel: Travel, config: Config, baseline: Plan, locked: set<JobId>, planned: Plan, repaired: Plan)
    requires forall id :: id in locked <==> IsLocked(world, id)
    requires Distinct(RoutedJobs(baseline.routes))
    requires Exclusive(OfWorkers, baseline.routes) && Exclusive(OfVans, baseline.routes)
    requires forall i :: 0 <= i < |baseline.routes| ==> Chronological(baseline.routes[i])
    requires PlanOk(planned, Reduced(world, Carried(baseline.routes, locked)), travel, config)
    requires repaired.routes == Carried(baseline.routes, locked) + planned.routes
    ensures Distinct(RoutedJobs(repaired.routes))
    ensures Exclusive(OfWorkers, repaired.routes) && Exclusive(OfVans, repaired.routes)
    ensures LockedUnmoved(repaired.routes, baseline.routes, world)
    ensures PlanOk(repaired, world, travel, config) <==>
            EachOk(Carried(baseline.routes, locked), world, travel, config)
  {
    var carried, less := Carried(baseline.routes, locked), Reduced(world, Carried(baseline.routes, locked));
    forall j | 0 <= j < |planned.routes|
      ensures RouteOk(planned.routes[j], world, travel, config) && ReferencesOk(planned.routes[j], less)
      ensures ClashFree(OfWorkers, carried, planned.routes[j]) && ClashFree(OfVans, carried, planned.routes[j])
    {
      assert RouteOk(planned.routes[j], less, travel, config);
      PassesInTheRealWorld(world, carried, planned.routes[j], travel, config);
    }
    JoinPasses(world, travel, config, carried, planned.routes);
    CarriedStayExclusive(OfWorkers, baseline.routes, locked);
    CarriedStayExclusive(OfVans, baseline.routes, locked);
    ExclusiveTogether(OfWorkers, carried, planned.routes);
    ExclusiveTogether(OfVans, carried, planned.routes);
    CarriedJobsAreRouted(baseline.routes, locked);
    NoJobTwice(world, carried, planned.routes);
    DistinctPlanAgrees(world, baseline.routes);
    CarryingMovesNothing(world, baseline.routes, locked, planned.routes);
  }

  /** The driven part of each route in flight holds up in the world, and by the roads, as they are now. */
  predicate DrivenHolds(
    route: Route, locked: set<JobId>, now: World, travel: Travel, earlier: set<JobId>, config: Config)
  {
    InFlight(route, locked) ==>
      StillHolds(route, LastLocked(route.stops, locked).value, now, travel, earlier, config)
  }

  predicate DrivenKept(route: Route, locked: set<JobId>, was: World, now: World) {
    InFlight(route, locked) ==> Kept(DrivenPart(route, LastLocked(route.stops, locked).value), was, now)
  }

  /** Repairing a plan that was valid before the day moved on: whatever has become of the work not yet done, the
      repaired plan is valid exactly when the driven stops were given long enough for what their jobs are now said
      to take, the roads driven still fit, no promise released before is asked for again and broken, nobody was out
      while they were driven, and their crews may end where they end. */
  lemma RepairOfASoundPlan(
    was: World, now: World, before: Travel, after: Travel, earlier: Config, config: Config, baseline: Plan,
    locked: set<JobId>, planned: Plan, repaired: Plan)
    requires PlanOk(baseline, was, before, earlier)
    requires forall id :: id in locked <==> IsLocked(now, id)
    requires forall i :: 0 <= i < |baseline.routes| ==> DrivenKept(baseline.routes[i], locked, was, now)
    requires PlanOk(planned, Reduced(now, Carried(baseline.routes, locked)), after, config)
    requires repaired.routes == Carried(baseline.routes, locked) + planned.routes
    ensures PlanOk(repaired, now, after, config) <==>
            forall i :: 0 <= i < |baseline.routes| ==>
              DrivenHolds(baseline.routes[i], locked, now, after, earlier.released, config)
    ensures LockedUnmoved(repaired.routes, baseline.routes, now)
  {
    var routes := baseline.routes;
    forall i | 0 <= i < |routes|
      ensures Chronological(routes[i])
      ensures DrivenOk(routes[i], locked, now, after, config) <==>
              DrivenHolds(routes[i], locked, now, after, earlier.released, config)
    {
      assert RouteOk(routes[i], was, before, earlier);
      LegsAreChronological(routes[i], was, before, earlier.slack);
      if InFlight(routes[i], locked) {
        assert DrivenKept(routes[i], locked, was, now);
        DrivenPartPassesIff(routes[i], LastLocked(routes[i].stops, locked).value, was, now, before, after, earlier,
                            config);
      }
    }
    RepairIsSound(now, after, config, baseline, locked, planned, repaired);
    CarriedPassIff(routes, locked, now, after, config);
  }

  /** A driven stop shorter than its job is now said to take, or a driven road that no longer fits, fails every
      repair there could be. */
  lemma OverrunsFailEveryRepair(
    now: World, travel: Travel, config: Config, baseline: Plan, locked: set<JobId>, i: nat, planned: Plan,
    repaired: Plan)
    requires i < |baseline.routes| && InFlight(baseline.routes[i], locked)
    requires var part := DrivenPart(baseline.routes[i], LastLocked(baseline.routes[i].stops, locked).value);
             ReferencesOk(part, now) && !(SlotsLast(part, now) && RoadsHold(part, now, travel, config.slack))
    requires repaired.routes == Carried(baseline.routes, locked) + planned.routes
    ensures !PlanOk(repaired, now, travel, config)
  {
    var carried := Carried(baseline.routes, locked);
    var part := DrivenPart(baseline.routes[i], LastLocked(baseline.routes[i].stops, locked).value);
    if PlanOk(repaired, now, travel, config) {
      assert forall h :: 0 <= h < |carried| ==> carried[h] == repaired.routes[h];
      assert EachOk(carried, now, travel, config);
      CarriedPassIff(baseline.routes, locked, now, travel, config);
      assert DrivenOk(baseline.routes[i], locked, now, travel, config);
      LegsTakeTime(part, now, travel, config.slack);
    }
  }

  // ------------------------------------------------------------ events of the day

  /** The event leaves the route's crew, van and depot as they were, and changes of its jobs only what a visit
      under way changes. */
  predicate Spares(route: Route, f: E.Fact) {
    && (f.WorkerRegistered? ==> f.worker.id !in route.workerIds)
    && (f.WorkerRemoved? ==> f.workerId !in route.workerIds)
    && (f.VanRegistered? ==> f.van.id != route.vanId)
    && (f.VanRemoved? ==> f.vanId != route.vanId)
    && !f.DepotMoved?
    && (f.JobRequested? ==> f.job.id !in StopJobs(route.stops))
    && (f.JobConfirmed? || f.CustomerRescheduled? ==> f.jobId !in StopJobs(route.stops))
  }

  lemma SparedJobMovesOn(route: Route, was: World, w: World, e: E.Event, id: JobId)
    requires WellKeyed(w) && JobMovedOn(id, was, w) && Spares(route, e.what) && id in StopJobs(route.stops)
    ensures JobMovedOn(id, was, E.Apply(w, e))
  {
    assert w.jobs[id].id == id;
  }

  lemma SparedStepKeeps(route: Route, was: World, w: World, e: E.Event)
    requires WellKeyed(w) && Kept(route, was, w) && Spares(route, e.what)
    ensures Kept(route, was, E.Apply(w, e))
  {
    forall i | 0 <= i < |route.stops| ensures JobMovedOn(route.stops[i].jobId, was, E.Apply(w, e)) {
      assert StopJobs(route.stops)[i] == route.stops[i].jobId;
      SparedJobMovesOn(route, was, w, e, route.stops[i].jobId);
    }
    forall i | 0 <= i < |route.workerIds|
      ensures route.workerIds[i] in E.Apply(w, e).workers
      ensures E.Apply(w, e).workers[route.workerIds[i]] == w.workers[route.workerIds[i]]
    {
    }
  }

  /** Dispatches, starts, completions, overruns, cancellations, outages and everything else the day brings leave a
      route's records as a repair needs them, unless they change its crew, van or depot or promise its jobs anew. */
  lemma {:induction false} TheDayMovesOn(route: Route, was: World, events: seq<E.Event>)
    requires WellKeyed(was) && Kept(route, was, was) && forall i :: 0 <= i < |events| ==> Spares(route, events[i].what)
    ensures Kept(route, was, E.Replay(was, events))
  {
    if events != [] {
      var n := |events| - 1;
      TheDayMovesOn(route, was, events[..n]);
      FoldLaws.ReplayKeepsFiling(was, events[..n]);
      SparedStepKeeps(route, was, E.Replay(was, events[..n]), events[n]);
    }
  }

  /** A traffic delay changes no record, but the roads are read anew with it: this one is in force on none of the
      drives at the time they were set out on. */
  predicate Misses(part: Route, was: World, cells: Cells, f: E.Fact) {
    f.TrafficDelay? && ReferencesOk(part, was) ==>
      forall i: nat :: i < |part.stops| ==> MissesDrive(part, i, was, cells, f.delay)
  }

  predicate MissesDrive(part: Route, i: nat, was: World, cells: Cells, o: TrafficOverride)
    requires i < |part.stops| && ReferencesOk(part, was)
  {
    !InForce(o, cells(SetOutFrom(part, i, was)), cells(was.jobs[part.stops[i].jobId].location), SetOutAt(part, i))
  }

  predicate ElsewhereOrLater(f: E.Fact, from: string, to: string, at: Moment) {
    f.TrafficDelay? ==> !InForce(f.delay, from, to, at)
  }

  /** A drive meets only the delays in force on it. */
  lemma {:induction false} DriveMovesOn(
    was: World, events: seq<E.Event>, base: Travel, cells: Cells, from: Location, to: Location, at: Moment)
    requires forall i :: 0 <= i < |events| ==> ElsewhereOrLater(events[i].what, cells(from), cells(to), at)
    ensures RoadsIn(E.Replay(was, events), base, cells)(from, to, at) == RoadsIn(was, base, cells)(from, to, at)
  {
    if events != [] {
      var n := |events| - 1;
      var w, now := E.Replay(was, events[..n]), E.Replay(was, events);
      DriveMovesOn(was, events[..n], base, cells, from, to, at);
      RoadsAreTheDelayed(w, base, cells, from, to, at);
      RoadsAreTheDelayed(now, base, cells, from, to, at);
      assert ElsewhereOrLater(events[n].what, cells(from), cells(to), at);
      if events[n].what.TrafficDelay? {
        FurtherDelay(base, cells, w.trafficOverrides, events[n].what.delay, from, to, at);
      }
    }
  }

  /** The events leave the part's records as a repair needs them and its drives as they were. */
  predicate SparesAll(part: Route, was: World, cells: Cells, events: seq<E.Event>) {
    forall i :: 0 <= i < |events| ==> Spares(part, events[i].what) && Misses(part, was, cells, events[i].what)
  }

  lemma RoadsMoveOn(part: Route, was: World, events: seq<E.Event>, base: Travel, cells: Cells, slack: nat)
    requires SparesAll(part, was, cells, events) && Kept(part, was, E.Replay(was, events))
    requires LegsOk(part, was, RoadsIn(was, base, cells), slack)
    ensures var now := E.Replay(was, events); RoadsHold(part, now, RoadsIn(now, base, cells), slack)
  {
    var now := E.Replay(was, events);
    PartIsNamed(part, was, now);
    LegsTakeTime(part, was, RoadsIn(was, base, cells), slack);
    forall i: nat | i < |part.stops| ensures RoadFits(part, i, now, RoadsIn(now, base, cells), slack) {
      DriveIsSpared(part, i, was, events, base, cells);
      SamePlaces(part, i, was, now);
      assert RoadFits(part, i, was, RoadsIn(was, base, cells), slack);
    }
  }

  lemma DriveIsSpared(part: Route, i: nat, was: World, events: seq<E.Event>, base: Travel, cells: Cells)
    requires SparesAll(part, was, cells, events) && ReferencesOk(part, was) && i < |part.stops|
    ensures DriveTo(part, i, was, RoadsIn(E.Replay(was, events), base, cells)) ==
            DriveTo(part, i, was, RoadsIn(was, base, cells))
  {
    var from, to, at := SetOutFrom(part, i, was), was.jobs[part.stops[i].jobId].location, SetOutAt(part, i);
    forall h | 0 <= h < |events| ensures ElsewhereOrLater(events[h].what, cells(from), cells(to), at) {
      if events[h].what.TrafficDelay? {
        assert Misses(part, was, cells, events[h].what);
        assert MissesDrive(part, i, was, cells, events[h].what.delay);
      }
    }
    DriveMovesOn(was, events, base, cells, from, to, at);
  }

  lemma SamePlaces(part: Route, i: nat, was: World, now: World)
    requires Kept(part, was, now) && ReferencesOk(part, was) && ReferencesOk(part, now) && i < |part.stops|
    ensures SetOutFrom(part, i, was) == SetOutFrom(part, i, now)
    ensures was.jobs[part.stops[i].jobId].location == now.jobs[part.stops[i].jobId].location
  {
    assert JobMovedOn(part.stops[i].jobId, was, now);
    if i > 0 {
      assert JobMovedOn(part.stops[i - 1].jobId, was, now);
    }
  }

  predicate DrivenSpared(route: Route, locked: set<JobId>, was: World, cells: Cells, events: seq<E.Event>) {
    InFlight(route, locked) ==>
      SparesAll(DrivenPart(route, LastLocked(route.stops, locked).value), was, cells, events)
  }

  /** The driven part of a route in flight was given long enough, nobody was out and its crew may end there. */
  predicate DrivenInOrder(route: Route, locked: set<JobId>, now: World, config: Config) {
    InFlight(route, locked) ==>
      var last := LastLocked(route.stops, locked).value;
      && SlotsLast(DrivenPart(route, last), now) && ResourcesAvailable(DrivenPart(route, last), now)
      && MayEndAt(route, route.stops[last].departure, now, config)
  }

  /** Repairing a valid plan after a day of any events that change no crew, van, depot or promise of a driven part and
      delay none of its drives: overruns, outages and the hour at which it ends decide, and nothing else. */
  lemma RepairAfterTheDay(
    was: World, events: seq<E.Event>, base: Travel, cells: Cells, config: Config, baseline: Plan, locked: set<JobId>,
    planned: Plan, repaired: Plan)
    requires WellKeyed(was) && PlanOk(baseline, was, RoadsIn(was, base, cells), config)
    requires forall id :: id in locked <==> IsLocked(E.Replay(was, events), id)
    requires forall i :: 0 <= i < |baseline.routes| ==> DrivenSpared(baseline.routes[i], locked, was, cells, events)
    requires var now := E.Replay(was, events);
             PlanOk(planned, Reduced(now, Carried(baseline.routes, locked)), RoadsIn(now, base, cells), config)
    requires repaired.routes == Carried(baseline.routes, locked) + planned.routes
    ensures var now := E.Replay(was, events);
            PlanOk(repaired, now, RoadsIn(now, base, cells), config) <==>
            forall i :: 0 <= i < |baseline.routes| ==> DrivenInOrder(baseline.routes[i], locked, now, config)
  {
    var now, routes := E.Replay(was, events), baseline.routes;
    forall i | 0 <= i < |routes|
      ensures DrivenKept(routes[i], locked, was, now)
      ensures DrivenHolds(routes[i], locked, now, RoadsIn(now, base, cells), config.released, config) <==>
              DrivenInOrder(routes[i], locked, now, config)
    {
      assert RouteOk(routes[i], was, RoadsIn(was, base, cells), config);
      if InFlight(routes[i], locked) {
        assert DrivenSpared(routes[i], locked, was, cells, events);
        SparedPartHolds(routes[i], LastLocked(routes[i].stops, locked).value, was, events, base, cells, config);
      }
    }
    RepairOfASoundPlan(was, now, RoadsIn(was, base, cells), RoadsIn(now, base, cells), config, config, baseline, locked,
                       planned, repaired);
  }

  lemma SparedPartHolds(
    route: Route, last: nat, was: World, events: seq<E.Event>, base: Travel, cells: Cells, config: Config)
    requires WellKeyed(was) && last < |route.stops| && RouteOk(route, was, RoadsIn(was, base, cells), config)
    requires SparesAll(DrivenPart(route, last), was, cells, events)
    ensures var part, now := DrivenPart(route, last), E.Replay(was, events);
            && Kept(part, was, now) && RoadsHold(part, now, RoadsIn(now, base, cells), config.slack)
            && ReleasesStand(part, now, config.released, config.released)
  {
    var part := DrivenPart(route, last);
    PartPassesOtherwise(route, last, was, RoadsIn(was, base, cells), config);
    TheDayMovesOn(part, was, events);
    RoadsMoveOn(part, was, events, base, cells, config.slack);
  }
}
