/** What a plan must satisfy, stated once and without loops. The checker in Checker.dfy is proved
    to report nothing exactly when these hold (domain/invariants.py). */
module Invariants {
  import opened Collections
  import opened Domain

  datatype Config = Config(slack: nat, allowOvertime: bool, released: set<JobId>)

  type Span = (Moment, Moment)

  /** Clock-in to clock-out, including the drive out and the drive home. */
  function RouteSpan(route: Route): Option<Span> {
    if route.stops == [] then None
    else
      var first, last := route.stops[0], route.stops[|route.stops| - 1];
      Some((first.arrival - first.travelMinutes, last.departure + route.returnMinutes))
  }

  predicate Overlaps(a: Span, b: Span) { a.0 < b.1 && b.0 < a.1 }

  // ------------------------------------------------------------ references

  predicate ReferencesOk(route: Route, world: World) {
    && (forall i :: 0 <= i < |route.workerIds| ==> route.workerIds[i] in world.workers)
    && route.vanId in world.vans
    && (forall i :: 0 <= i < |route.stops| ==> route.stops[i].jobId in world.jobs)
  }

  // --------------------------------------------------------------- fitness

  /** The certifications of a crew's known members taken together. */
  function Held(world: World, workerIds: seq<WorkerId>): set<Certification> {
    set w, c | w in workerIds && w in world.workers && c in world.workers[w].certifications :: c
  }

  predicate StopFit(stop: Stop, route: Route, world: World) {
    stop.jobId in world.jobs ==>
      && world.jobs[stop.jobId].requiredCertifications <= Held(world, route.workerIds)
      && world.jobs[stop.jobId].crewSize <= |route.workerIds|
  }

  predicate CrewFit(route: Route, world: World) {
    forall i :: 0 <= i < |route.stops| ==> StopFit(route.stops[i], route, world)
  }

  // ----------------------------------------------------------- exclusivity

  datatype Resource = OfWorkers | OfVans

  function Claims(kind: Resource, route: Route): seq<string> {
    if kind.OfWorkers? then route.workerIds else [route.vanId]
  }

  predicate Shares(kind: Resource, a: Route, b: Route) {
    exists i, j :: 0 <= i < |Claims(kind, a)| && 0 <= j < |Claims(kind, b)| && Claims(kind, a)[i] == Claims(kind, b)[j]
  }

  predicate Clash(kind: Resource, a: Route, b: Route) {
    RouteSpan(a).Some? && RouteSpan(b).Some? && Shares(kind, a, b) && Overlaps(RouteSpan(a).value, RouteSpan(b).value)
  }

  /** A route that names one worker twice clashes with itself. */
  predicate SelfClash(kind: Resource, a: Route) {
    RouteSpan(a).Some? && !Distinct(Claims(kind, a)) && Overlaps(RouteSpan(a).value, RouteSpan(a).value)
  }

  /** Nobody and nothing is in two places at once. */
  predicate Exclusive(kind: Resource, routes: seq<Route>) {
    && (forall i :: 0 <= i < |routes| ==> !SelfClash(kind, routes[i]))
    && (forall i, j :: 0 <= i < j < |routes| ==> !Clash(kind, routes[i], routes[j]))
  }

  // ---------------------------------------------------------- availability

  predicate ResourcesAvailable(route: Route, world: World) {
    RouteSpan(route).Some? ==>
      var (start, end) := RouteSpan(route).value;
      && (forall i :: 0 <= i < |route.workerIds| && route.workerIds[i] in world.workers ==>
            IsWorkerAvailable(world, route.workerIds[i], start, end))
      && (route.vanId in world.vans ==> IsVanAvailable(world, route.vanId, start, end))
  }

  // ---------------------------------------------------------------- travel

  /** The stops whose jobs the world knows; the others are skipped when legs are recomputed. */
  function KnownStops(stops: seq<Stop>, world: World): (r: seq<Stop>)
    ensures forall i :: 0 <= i < |r| ==> r[i].jobId in world.jobs
  {
    if stops == [] then []
    else
      var rest := KnownStops(stops[..|stops| - 1], world);
      if stops[|stops| - 1].jobId in world.jobs then rest + [stops[|stops| - 1]] else rest
  }

  lemma {:induction false} AllStopsKnown(stops: seq<Stop>, world: World)
    requires forall i :: 0 <= i < |stops| ==> stops[i].jobId in world.jobs
    ensures KnownStops(stops, world) == stops
  {
    if stops != [] {
      AllStopsKnown(stops[..|stops| - 1], world);
      assert stops == stops[..|stops| - 1] + [stops[|stops| - 1]];
    }
  }

  /** Stops of jobs nobody knows are passed over. */
  lemma {:induction false} KnownStopsAre(stops: seq<Stop>, world: World)
    ensures KnownStops(stops, world) == Keep(stops, (s: Stop) => s.jobId in world.jobs)
    decreases |stops|
  {
    if stops != [] {
      var n := |stops| - 1;
      KnownStopsAre(stops[..n], world);
      KeepJoin(stops[..n], [stops[n]], (s: Stop) => s.jobId in world.jobs);
      assert stops == stops[..n] + [stops[n]];
    }
  }

  /** One recomputed leg. `previous` is the stop before, if any. */
  predicate LegOk(route: Route, previous: Option<Stop>, stop: Stop, world: World, travel: Travel, slack: nat)
    requires stop.jobId in world.jobs
    requires previous.Some? ==> previous.value.jobId in world.jobs
  {
    var job := world.jobs[stop.jobId];
    && stop.departure - stop.arrival >= job.duration
    && match previous
       case None =>
         var departAt := stop.arrival - stop.travelMinutes;
         route.vanId in world.vans ==>
           stop.arrival >= departAt + travel(world.vans[route.vanId].homeDepot, job.location, departAt).minutes - slack
       case Some(p) =>
         && stop.arrival >= p.departure
         && stop.arrival >=
              p.departure + travel(world.jobs[p.jobId].location, job.location, p.departure).minutes - slack
  }

  function Before(stops: seq<Stop>, i: nat): Option<Stop>
    requires i <= |stops|
  {
    if i == 0 then None else Some(stops[i - 1])
  }

  /** Every stop of a list of known stops is consistent with the one before it. */
  predicate LegsHold(route: Route, known: seq<Stop>, world: World, travel: Travel, slack: nat)
    requires forall i :: 0 <= i < |known| ==> known[i].jobId in world.jobs
  {
    forall i :: 0 <= i < |known| ==> LegOk(route, Before(known, i), known[i], world, travel, slack)
  }

  predicate LegsOk(route: Route, world: World, travel: Travel, slack: nat) {
    LegsHold(route, KnownStops(route.stops, world), world, travel, slack)
  }

  // --------------------------------------------------------------- windows

  /** A window must contain the whole visit when it is hard, or promised and not released. */
  predicate IsBinding(job: Job, w: Window, released: set<JobId>) {
    w.hardness.Hard? || (job.id !in released && job.commitment.Confirmed?)
  }

  predicate Satisfies(job: Job, w: Window, stop: Stop, released: set<JobId>) {
    stop.arrival >= w.start && (IsBinding(job, w, released) ==> stop.departure <= w.end)
  }

  predicate StopInWindow(stop: Stop, world: World, released: set<JobId>) {
    stop.jobId in world.jobs && world.jobs[stop.jobId].windows != [] ==>
      var job := world.jobs[stop.jobId];
      && (exists i :: 0 <= i < |job.windows| && Satisfies(job, job.windows[i], stop, released))
      && stop.arrival >= job.requestedAt
  }

  predicate WindowsOk(route: Route, world: World, released: set<JobId>) {
    forall i :: 0 <= i < |route.stops| ==> StopInWindow(route.stops[i], world, released)
  }

  // ----------------------------------------------------------------- hours

  predicate WithinHours(worker: Worker, span: Span, config: Config) {
    var hours := HoursFor(worker, Weekday(DayOf(span.0)));
    && hours.Some?
    && ClockOf(span.0) >= hours.value.start
    && (ClockOf(span.1) <= hours.value.end || (config.allowOvertime && worker.overtimeEligible))
  }

  /** On one day, in moments: somebody rostered is within hours when out no sooner than the shift begins and home by its
      end, or later by overtime. */
  lemma HoursOnOneDay(worker: Worker, span: Span, config: Config, d: Day)
    requires DayStart(d) <= span.0 <= span.1 < DayStart(d) + MINUTES_PER_DAY
    ensures WithinHours(worker, span, config) <==>
            var hours := HoursFor(worker, Weekday(d));
            && hours.Some? && DayStart(d) + hours.value.start <= span.0
            && (span.1 <= DayStart(d) + hours.value.end || (config.allowOvertime && worker.overtimeEligible))
  {
    ClockWithinDay(d, span.0);
    ClockWithinDay(d, span.1);
  }

  predicate HoursOk(route: Route, world: World, config: Config) {
    RouteSpan(route).Some? ==>
      forall i :: 0 <= i < |route.workerIds| && route.workerIds[i] in world.workers ==>
        WithinHours(world.workers[route.workerIds[i]], RouteSpan(route).value, config)
  }

  // -------------------------------------------------------------- capacity

  function PanesOn(stops: seq<Stop>, world: World): nat {
    if stops == [] then 0
    else
      var stop := stops[|stops| - 1];
      PanesOn(stops[..|stops| - 1], world) + if stop.jobId in world.jobs then Panes(world.jobs[stop.jobId]) else 0
  }

  /** How many of a part, off the shelf, a list of materials uses. */
  function DemandOf(materials: seq<Material>, part: PartCode): nat {
    if materials == [] then 0
    else
      var m := materials[|materials| - 1];
      DemandOf(materials[..|materials| - 1], part) + if m.inStock && m.partCode == part then m.quantity else 0
  }

  function DemandOn(stops: seq<Stop>, world: World, part: PartCode): nat {
    if stops == [] then 0
    else
      var stop := stops[|stops| - 1];
      DemandOn(stops[..|stops| - 1], world, part)
      + if stop.jobId in world.jobs then DemandOf(world.jobs[stop.jobId].materials, part) else 0
  }

  ghost predicate CapacityOk(route: Route, world: World) {
    route.vanId in world.vans ==>
      && PanesOn(route.stops, world) <= world.vans[route.vanId].rackSlots
      && (forall part :: DemandOn(route.stops, world, part) > 0 ==>
            DemandOn(route.stops, world, part) <= GetOr(world.vans[route.vanId].stock, part, 0))
  }

  /** The rack slots some stops fill: one for each pane, and one for a job that names none. */
  function SlotsFilled(stops: seq<Stop>, world: World): set<(int, int)> {
    set i, slot | 0 <= i < |stops| && stops[i].jobId in world.jobs
      && 0 <= slot < (if world.jobs[stops[i].jobId].glassPanes.Some?
                      then world.jobs[stops[i].jobId].glassPanes.value else 1) :: (i, slot)
  }

  lemma {:induction false} PanesFillSlots(stops: seq<Stop>, world: World)
    ensures PanesOn(stops, world) == |SlotsFilled(stops, world)|
    decreases |stops|
  {
    if stops == [] {
      assert SlotsFilled(stops, world) == {};
    } else {
      var n := |stops| - 1;
      PanesFillSlots(stops[..n], world);
      LastSlots(stops, world);
      if stops[n].jobId in world.jobs {
        TaggedSize(n as int, Panes(world.jobs[stops[n].jobId]));
      }
    }
  }

  lemma LastSlots(stops: seq<Stop>, world: World)
    requires stops != []
    ensures var n := |stops| - 1;
            var rest := SlotsFilled(stops[..n], world);
            if stops[n].jobId !in world.jobs then SlotsFilled(stops, world) == rest
            else
              var more := Tagged(n, Panes(world.jobs[stops[n].jobId]));
              rest !! more && SlotsFilled(stops, world) == rest + more
  {
    assert forall i :: 0 <= i < |stops| - 1 ==> stops[..|stops| - 1][i] == stops[i];
  }

  /** The pieces of a part that are taken off the shelf. */
  function PiecesOf(materials: seq<Material>, part: PartCode): set<(int, int)> {
    set i, piece | 0 <= i < |materials| && materials[i].inStock && materials[i].partCode == part
      && 0 <= piece < materials[i].quantity :: (i, piece)
  }

  lemma {:induction false} DemandIsPieces(materials: seq<Material>, part: PartCode)
    ensures DemandOf(materials, part) == |PiecesOf(materials, part)|
    decreases |materials|
  {
    if materials == [] {
      assert PiecesOf(materials, part) == {};
    } else {
      var n := |materials| - 1;
      DemandIsPieces(materials[..n], part);
      LastPieces(materials, part);
      TaggedSize(n as int, materials[n].quantity);
    }
  }

  lemma LastPieces(materials: seq<Material>, part: PartCode)
    requires materials != []
    ensures var n := |materials| - 1;
            var rest, more := PiecesOf(materials[..n], part), Tagged(n, materials[n].quantity);
            && rest !! more
            && PiecesOf(materials, part) ==
               if materials[n].inStock && materials[n].partCode == part then rest + more else rest
  {
    assert forall i :: 0 <= i < |materials| - 1 ==> materials[..|materials| - 1][i] == materials[i];
  }

  function PiecesOn(stops: seq<Stop>, world: World, part: PartCode): set<(int, (int, int))> {
    set i, piece | 0 <= i < |stops| && stops[i].jobId in world.jobs
      && piece in PiecesOf(world.jobs[stops[i].jobId].materials, part) :: (i, piece)
  }

  lemma {:induction false} LoadIsPieces(stops: seq<Stop>, world: World, part: PartCode)
    ensures DemandOn(stops, world, part) == |PiecesOn(stops, world, part)|
    decreases |stops|
  {
    if stops == [] {
      assert PiecesOn(stops, world, part) == {};
    } else {
      var n := |stops| - 1;
      LoadIsPieces(stops[..n], world, part);
      LastStopsPieces(stops, world, part);
      DisjointSize(PiecesOn(stops[..n], world, part), PiecesAt(stops, world, part, n));
      if stops[n].jobId in world.jobs {
        DemandIsPieces(world.jobs[stops[n].jobId].materials, part);
        TagAllSize(n as int, PiecesOf(world.jobs[stops[n].jobId].materials, part));
      }
    }
  }

  function PiecesAt(stops: seq<Stop>, world: World, part: PartCode, i: int): set<(int, (int, int))>
    requires 0 <= i < |stops|
  {
    if stops[i].jobId in world.jobs then TagAll(i, PiecesOf(world.jobs[stops[i].jobId].materials, part)) else {}
  }

  lemma LastStopsPieces(stops: seq<Stop>, world: World, part: PartCode)
    requires stops != []
    ensures var n := |stops| - 1;
            && PiecesOn(stops, world, part) == PiecesOn(stops[..n], world, part) + PiecesAt(stops, world, part, n)
            && PiecesOn(stops[..n], world, part) !! PiecesAt(stops, world, part, n)
  {
    assert forall i :: 0 <= i < |stops| - 1 ==> stops[..|stops| - 1][i] == stops[i];
  }

  // ------------------------------------------------------------- materials

  predicate MaterialsReady(stop: Stop, date: Day, world: World) {
    stop.jobId in world.jobs && world.jobs[stop.jobId].materials != [] ==>
      PartsExistBy(world.jobs[stop.jobId], date)
  }

  predicate MaterialsOk(route: Route, world: World) {
    forall i :: 0 <= i < |route.stops| ==> MaterialsReady(route.stops[i], route.date, world)
  }

  // ------------------------------------------------------------ everything

  ghost predicate RouteOk(route: Route, world: World, travel: Travel, config: Config) {
    && ReferencesOk(route, world)
    && CrewFit(route, world)
    && ResourcesAvailable(route, world)
    && LegsOk(route, world, travel, config.slack)
    && WindowsOk(route, world, config.released)
    && HoursOk(route, world, config)
    && CapacityOk(route, world)
    && MaterialsOk(route, world)
  }

  ghost predicate PlanOk(plan: Plan, world: World, travel: Travel, config: Config) {
    && (forall i :: 0 <= i < |plan.routes| ==> RouteOk(plan.routes[i], world, travel, config))
    && Distinct(RoutedJobs(plan.routes))
    && Exclusive(OfWorkers, plan.routes)
    && Exclusive(OfVans, plan.routes)
  }

  lemma PlanOkByCheck(plan: Plan, world: World, travel: Travel, config: Config)
    ensures PlanOk(plan, world, travel, config) <==>
      && (forall i :: 0 <= i < |plan.routes| ==> ReferencesOk(plan.routes[i], world))
      && Distinct(RoutedJobs(plan.routes))
      && (forall i :: 0 <= i < |plan.routes| ==> CrewFit(plan.routes[i], world))
      && Exclusive(OfWorkers, plan.routes) && Exclusive(OfVans, plan.routes)
      && (forall i :: 0 <= i < |plan.routes| ==> ResourcesAvailable(plan.routes[i], world))
      && (forall i :: 0 <= i < |plan.routes| ==> LegsOk(plan.routes[i], world, travel, config.slack))
      && (forall i :: 0 <= i < |plan.routes| ==> WindowsOk(plan.routes[i], world, config.released))
      && (forall i :: 0 <= i < |plan.routes| ==> HoursOk(plan.routes[i], world, config))
      && (forall i :: 0 <= i < |plan.routes| ==> CapacityOk(plan.routes[i], world))
      && (forall i :: 0 <= i < |plan.routes| ==> MaterialsOk(plan.routes[i], world))
  {
    if PlanOk(plan, world, travel, config) {
      forall i | 0 <= i < |plan.routes|
        ensures ReferencesOk(plan.routes[i], world) && CrewFit(plan.routes[i], world)
          && ResourcesAvailable(plan.routes[i], world) && LegsOk(plan.routes[i], world, travel, config.slack)
          && WindowsOk(plan.routes[i], world, config.released) && HoursOk(plan.routes[i], world, config)
          && CapacityOk(plan.routes[i], world) && MaterialsOk(plan.routes[i], world)
      {
        assert RouteOk(plan.routes[i], world, travel, config);
      }
    }
  }

  // -------------------------------------------------------- against a baseline

  function FirstStop(stops: seq<Stop>, job: JobId): (r: Option<Stop>)
    ensures r.Some? ==> r.value in stops && r.value.jobId == job
    ensures r.None? ==> forall s :: s in stops ==> s.jobId != job
  {
    if stops == [] then None
    else if stops[0].jobId == job then Some(stops[0])
    else FirstStop(stops[1..], job)
  }

  /** Where a plan first puts a job. */
  function StopFor(routes: seq<Route>, job: JobId): (r: Option<(Route, Stop)>)
    ensures r.Some? ==> r.value.0 in routes && r.value.1 in r.value.0.stops && r.value.1.jobId == job
    ensures r.None? ==> forall i, s :: 0 <= i < |routes| && s in routes[i].stops ==> s.jobId != job
  {
    if routes == [] then None
    else
      var here := FirstStop(routes[0].stops, job);
      if here.Some? then Some((routes[0], here.value)) else StopFor(routes[1..], job)
  }

  /** Where a plan first puts a job: before it there is no stop for it, on an earlier route or the same one. */
  lemma {:induction false} StopForIsFirst(routes: seq<Route>, job: JobId) returns (i: nat, j: nat)
    ensures StopFor(routes, job).Some? ==>
              && i < |routes| && j < |routes[i].stops| && StopFor(routes, job).value == (routes[i], routes[i].stops[j])
              && (forall h, s :: 0 <= h < i && s in routes[h].stops ==> s.jobId != job)
              && (forall h :: 0 <= h < j ==> routes[i].stops[h].jobId != job)
  {
    i, j := 0, 0;
    if routes != [] {
      j := FirstStopIsFirst(routes[0].stops, job);
      if FirstStop(routes[0].stops, job).None? {
        i, j := StopForIsFirst(routes[1..], job);
        i := i + 1;
      }
    }
  }

  lemma {:induction false} FirstStopIsFirst(stops: seq<Stop>, job: JobId) returns (j: nat)
    ensures FirstStop(stops, job).Some? ==>
              && j < |stops| && stops[j] == FirstStop(stops, job).value
              && forall h :: 0 <= h < j ==> stops[h].jobId != job
  {
    j := 0;
    if stops != [] && stops[0].jobId != job {
      j := FirstStopIsFirst(stops[1..], job);
      j := j + 1;
    }
  }

  predicate IsLocked(world: World, job: JobId) {
    job in world.jobs && (world.jobs[job].commitment.Dispatched? || world.jobs[job].commitment.Completed?)
  }

  /** A dispatched or completed stop of the old plan stands where the new plan first puts its job. */
  predicate Unmoved(plan: seq<Route>, route: Route, stop: Stop) {
    var found := StopFor(plan, stop.jobId);
    && found.Some?
    && found.value.1.arrival == stop.arrival
    && SetOf(found.value.0.workerIds) == SetOf(route.workerIds)
  }

  predicate LockedUnmoved(plan: seq<Route>, baseline: seq<Route>, world: World) {
    forall i, j :: 0 <= i < |baseline| && 0 <= j < |baseline[i].stops|
                   && IsLocked(world, baseline[i].stops[j].jobId) ==>
      Unmoved(plan, baseline[i], baseline[i].stops[j])
  }
}
