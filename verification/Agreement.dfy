/** Planner, materializer and checker agree: whatever assignment the solver returns, the routes made
    from it pass every check, under hypotheses that name each edge where the planner and the checker
    differ (scheduler/day_planner.py, scheduler/routing.py, domain/invariants.py). */
module Agreement {
  import opened Collections
  import opened Domain
  import opened FreeInterval
  import opened Routing
  import opened DayPlanner
  import I = Invariants

  // ---------------------------------------------------------------- hypotheses

  /** Where crew `k` drives between: its own depot, then the jobs. */
  function NodeOf(p: Problem, k: nat, i: nat): Location
    requires k < |p.vans| && i <= |p.jobs|
  {
    if i == 0 then p.vans[k].homeDepot else p.jobs[i - 1].location
  }

  /** By when crew `k` is done at node `i`, if on time. */
  function DoneAt(p: Problem, a: Assignment, k: nat, i: nat): int
    requires i <= |p.jobs|
  {
    if i == 0 then a.crewStart(k) else a.start(i - 1, k) + p.jobs[i - 1].duration
  }

  /** A moment at which crew `k`, on time, may set out on this drive, and at which the matrix lets it end within its
      hours. */
  predicate MaySetOut(p: Problem, a: Assignment, k: nat, i: nat, j: nat, t: Moment)
    requires Sized(p) && i <= |p.jobs| && j <= |p.jobs|
  {
    && DayStart(p.onDate) + a.crewStart(k) <= t <= DayStart(p.onDate) + DoneAt(p, a, k, i)
    && t + p.matrix[i][j] <= DayStart(p.onDate) + a.crewEnd(k)
  }

  /** No drive on crew `k`'s tour, from or to its own depot or between jobs, takes longer than the matrix says. */
  ghost predicate Pessimistic(p: Problem, a: Assignment, travel: Travel, k: nat)
    requires Sized(p) && k < |p.vans|
  {
    forall i: nat, j: nat, t: Moment :: i <= |p.jobs| && j <= |p.jobs| && i != j && a.arc(k, i, j) ==>
      DriveBounded(p, a, travel, k, i, j, t)
  }

  predicate DriveBounded(p: Problem, a: Assignment, travel: Travel, k: nat, i: nat, j: nat, t: Moment)
    requires Sized(p) && k < |p.vans| && i <= |p.jobs| && j <= |p.jobs|
  {
    MaySetOut(p, a, k, i, j, t) ==> travel(NodeOf(p, k, i), NodeOf(p, k, j), t).minutes <= p.matrix[i][j]
  }

  /** The matrix measures from the first van's depot. */
  predicate OneDepot(p: Problem) {
    forall k :: 0 <= k < |p.vans| ==> p.vans[k].homeDepot == p.vans[0].homeDepot
  }

  /** Every job with windows was asked for before the day. */
  predicate RequestedBefore(p: Problem) {
    forall j :: 0 <= j < |p.jobs| && p.jobs[j].windows != [] ==> p.jobs[j].requestedAt <= DayStart(p.onDate)
  }

  /** No visited job's promise was released. */
  ghost predicate NothingReleased(p: Problem, a: Assignment) {
    forall j, k :: 0 <= j < |p.jobs| && 0 <= k < |p.vans| && a.visit(j, k) ==> !a.released(j)
  }

  /** However late a promised visit runs, the window the replay picks holds all of it. A promise the checker was
      told is released binds it to nothing. */
  ghost predicate PromisesHold(p: Problem, a: Assignment, k: nat, released: set<JobId>) {
    forall j :: 0 <= j < |p.jobs| && a.visit(j, k) ==> PromiseHolds(p.jobs[j], released)
  }

  /** A promise the solver released needs no window, but where the crew visits one its start suits the windows all the
      same: as a promise, or as a released one if the checker was told so. */
  ghost predicate ReleasedSuit(p: Problem, a: Assignment, k: nat, released: set<JobId>) {
    forall j :: 0 <= j < |p.jobs| && a.visit(j, k) && a.released(j) ==>
      WindowHolds(p.jobs[j], DayStart(p.onDate) + a.start(j, k), released)
  }

  /** When the crew reaches job `i`'s door, setting out as soon as it is free. */
  function Door(travel: Travel, depot: Location, clock: Moment, jobs: seq<Job>, i: nat): Moment
    requires i < |jobs|
  {
    var origin, ready := OriginOf(depot, jobs, i), ReadyFor(clock, Walk(travel, depot, clock, jobs), i);
    ready + travel(origin, jobs[i].location, ready).minutes
  }

  /** The checker refuses work before its request and the planner never looks: no visit replayed from when the
      crew gets to the door can come before. */
  ghost predicate RequestsSuit(p: Problem, a: Assignment, travel: Travel, k: nat, released: set<JobId>)
    requires k < |p.vans|
  {
    var jobs, clock := SequencedJobs(p, a, k), DayStart(p.onDate) + a.crewStart(k);
    forall i: nat :: i < |jobs| ==> AskedAt(travel, p.vans[k].homeDepot, clock, jobs, i, released)
  }

  ghost predicate AskedAt(
    travel: Travel, depot: Location, clock: Moment, jobs: seq<Job>, i: nat, released: set<JobId>)
    requires i < |jobs|
  {
    AskedInTime(jobs[i], Door(travel, depot, clock, jobs, i), released)
  }

  /** Outages end after they begin. */
  predicate OutagesAreReal(world: World) {
    && (forall id :: id in world.workerOutages ==> forall o :: o in world.workerOutages[id] ==> WellFormed(o))
    && (forall id :: id in world.vanOutages ==> forall o :: o in world.vanOutages[id] ==> WellFormed(o))
  }

  /** The planner does not take a stretch for free that an outage covers. */
  ghost predicate SeenAlike(outages: seq<Unavailability>, day: Moment, start: Moment, end: Moment) {
    Free(outages, day, (start - day, end - day), start - day, end - day) ==> NoneCovers(outages, start, end)
  }

  /** The checker reads `end` as no later than this worker may be out: the rostered end, a time overtime allows, or
      midnight, which the clock reads as early. */
  predicate MayBeOutTill(p: Problem, config: I.Config, i: nat, end: Moment)
    requires i < |p.workers|
  {
    var hours := HoursFor(p.workers[i], Weekday(p.onDate));
    || (hours.Some? && end <= DayStart(p.onDate) + hours.value.end)
    || (config.allowOvertime && p.workers[i].overtimeEligible)
    || end == DayStart(p.onDate) + MINUTES_PER_DAY
  }

  /** Out from `start` to `end`, this member is home by the end of the usable stretch, or meets no outage after it
      and may be out so late. */
  predicate KeptClear(world: World, p: Problem, config: I.Config, i: nat, start: Moment, end: Moment)
    requires Sized(p) && i < |p.workers|
  {
    var free := DayStart(p.onDate) + p.span[i].1;
    || end <= free
    || (MayBeOutTill(p, config, i, end) && NoneCovers(WorkerOutages(world, p.workers[i].id), Max(start, free), end))
  }

  ghost predicate MemberClear(world: World, p: Problem, config: I.Config, i: nat, start: Moment, end: Moment)
    requires Sized(p) && i < |p.workers|
  {
    && SeenAlike(WorkerOutages(world, p.workers[i].id), DayStart(p.onDate), start, end)
    && KeptClear(world, p, config, i, start, end)
  }

  /** Nobody aboard and not the van is caught by an outage or an hour between setting out and coming home. */
  ghost predicate OutingClear(world: World, p: Problem, a: Assignment, config: I.Config, k: nat, route: Route)
    requires Sized(p) && k < |p.vans|
  {
    I.RouteSpan(route).Some? ==>
      var (start, end) := I.RouteSpan(route).value;
      && SeenAlike(VanOutages(world, p.vans[k].id), DayStart(p.onDate), start, end)
      && forall i :: 0 <= i < |p.workers| && a.assign(i, k) ==> MemberClear(world, p, config, i, start, end)
  }

  /** The last minute a member may be kept out: past the usable stretch by the allowance, within the day. */
  function ReachOf(p: Problem, i: nat): int
    requires Sized(p) && i < |p.workers|
  {
    Min(p.span[i].1 + Allowance(p, i), MINUTES_PER_DAY)
  }

  /** The minutes past a member's usable stretch, which the planner adds after trimming for outages:
      there are none, or no outage falls in them and the checker does not read them as too late, because
      it allows this member overtime or because the only one is the last of the day. */
  predicate ReachIsClear(world: World, p: Problem, config: I.Config, i: nat)
    requires Sized(p) && i < |p.workers|
  {
    || Allowance(p, i) == 0
    || (&& ((config.allowOvertime && p.workers[i].overtimeEligible) || p.span[i].1 == MINUTES_PER_DAY - 1)
        && NoneCovers(WorkerOutages(world, p.workers[i].id),
                      DayStart(p.onDate) + p.span[i].1, DayStart(p.onDate) + ReachOf(p, i)))
  }

  /** A departure search that runs out still arrives when service can first begin. */
  predicate PunctualAt(travel: Travel, depot: Location, clock: Moment, jobs: seq<Job>, i: nat)
    requires i < |jobs|
  {
    var origin, ready := OriginOf(depot, jobs, i), ReadyFor(clock, Walk(travel, depot, clock, jobs), i);
    InTime(travel, origin, jobs[i], ready, Target(travel, origin, jobs[i], ready))
  }

  /** Every drive gets there by its start. */
  predicate AllTimely(travel: Travel, depot: Location, clock: Moment, jobs: seq<Job>, starts: seq<Moment>)
    requires |starts| == |jobs|
  {
    forall i: nat :: i < |jobs| ==> LegInTime(travel, depot, clock, jobs, starts, i)
  }

  ghost predicate Timely(p: Problem, a: Assignment, travel: Travel, k: nat)
    requires k < |p.vans|
  {
    AllTimely(travel, p.vans[k].homeDepot, DayStart(p.onDate) + a.crewStart(k), SequencedJobs(p, a, k), Starts(p, a, k))
  }

  /** With several windows to pick from, some of them binding, the drive to job `i` gets there when service can first
      begin. */
  predicate PunctualWhereBound(
    travel: Travel, depot: Location, clock: Moment, jobs: seq<Job>, i: nat, released: set<JobId>)
    requires i < |jobs|
  {
    |jobs[i].windows| > 1 && SomeBinds(jobs[i], released) ==> PunctualAt(travel, depot, clock, jobs, i)
  }

  predicate SomeBinds(job: Job, released: set<JobId>) {
    exists w :: w in job.windows && I.IsBinding(job, w, released)
  }

  ghost predicate Punctual(p: Problem, a: Assignment, travel: Travel, k: nat, released: set<JobId>)
    requires k < |p.vans|
  {
    var jobs, clock := SequencedJobs(p, a, k), DayStart(p.onDate) + a.crewStart(k);
    forall i: nat :: i < |jobs| ==> PunctualWhereBound(travel, p.vans[k].homeDepot, clock, jobs, i, released)
  }

  /** The first leg carries travel time that the checker accepts for the departure it implies. */
  ghost predicate FirstLegSuits(p: Problem, a: Assignment, travel: Travel, k: nat, slack: nat)
    requires k < |p.vans|
  {
    SequencedJobs(p, a, k) != [] ==>
      FirstLegWillPass(travel, p.vans[k].homeDepot, SequencedJobs(p, a, k)[0], DayStart(p.onDate) + a.crewStart(k),
          slack)
  }

  /** What one crew's replay may not run into. */
  ghost predicate CrewEdges(world: World, p: Problem, a: Assignment, travel: Travel, k: nat, config: I.Config)
    requires Sized(p) && k < |p.vans|
  {
    && Pessimistic(p, a, travel, k)
    && Timely(p, a, travel, k) && FirstLegSuits(p, a, travel, k, config.slack)
    && ReleasedSuit(p, a, k, config.released) && PromisesHold(p, a, k, config.released)
    && RequestsSuit(p, a, travel, k, config.released) && Punctual(p, a, travel, k, config.released)
    && OutingClear(world, p, a, config, k, CrewRoute(p, a, travel, k))
  }

  /** The edges, together. */
  ghost predicate Edges(world: World, travel: Travel, p: Problem, a: Assignment, config: I.Config) {
    && Sized(p)
    && WellKeyed(world)
    && (forall k :: 0 <= k < |p.vans| && Emitted(p, a, k) ==> CrewEdges(world, p, a, travel, k, config))
  }

  // ------------------------------------------------------------ pessimism holds

  lemma SteadyDriveIsGood(travel: Travel, origin: Location, job: Job, readyAt: Moment, due: Moment, slack: nat)
    requires TimeIndependent(travel)
    ensures InTime(travel, origin, job, readyAt, due) && FirstLegWillPass(travel, origin, job, readyAt, slack)
  {
    SteadyRoadsSettle(travel, origin, job, readyAt);
    EndingIff(travel, origin, job, readyAt);
  }

  /** When travel does not depend on the hour, the matrix is exact for every crew, every search in time and
      every first leg sound. */
  lemma SteadyTravelSuffices(
    travel: Travel, probes: seq<Moment>, p: Problem, a: Assignment, slack: nat, released: set<JobId>)
    requires Sized(p) && MatrixPosed(travel, probes, p) && TimeIndependent(travel) && probes != [] && OneDepot(p)
    ensures forall k :: 0 <= k < |p.vans| ==>
              && Pessimistic(p, a, travel, k) && Timely(p, a, travel, k) && FirstLegSuits(p, a, travel, k, slack)
              && Punctual(p, a, travel, k, released)
  {
    forall k | 0 <= k < |p.vans|
      ensures Pessimistic(p, a, travel, k) && Timely(p, a, travel, k) && FirstLegSuits(p, a, travel, k, slack)
      ensures Punctual(p, a, travel, k, released)
    {
      SteadyDepotIff(travel, probes, p, a, k);
      FirstDepotIsWithin(travel, probes, p, a, k);
      SteadyDrives(travel, p, a, k);
      SteadyPunctual(travel, p, a, k, released);
      SteadyFirstLeg(travel, p, a, k, slack);
    }
  }

  lemma SteadyDrives(travel: Travel, p: Problem, a: Assignment, k: nat)
    requires TimeIndependent(travel) && k < |p.vans|
    ensures Timely(p, a, travel, k)
  {
    SteadyLegs(travel, p.vans[k].homeDepot, DayStart(p.onDate) + a.crewStart(k), SequencedJobs(p, a, k),
               Starts(p, a, k));
  }

  lemma SteadyPunctual(travel: Travel, p: Problem, a: Assignment, k: nat, released: set<JobId>)
    requires TimeIndependent(travel) && k < |p.vans|
    ensures Punctual(p, a, travel, k, released)
  {
    var depot, clock, jobs := p.vans[k].homeDepot, DayStart(p.onDate) + a.crewStart(k), SequencedJobs(p, a, k);
    forall i: nat | i < |jobs| ensures PunctualWhereBound(travel, depot, clock, jobs, i, released) {
      var origin, ready := OriginOf(depot, jobs, i), ReadyFor(clock, Walk(travel, depot, clock, jobs), i);
      SteadyDriveIsGood(travel, origin, jobs[i], ready, Target(travel, origin, jobs[i], ready), 0);
    }
  }

  lemma SteadyFirstLeg(travel: Travel, p: Problem, a: Assignment, k: nat, slack: nat)
    requires TimeIndependent(travel) && k < |p.vans|
    ensures FirstLegSuits(p, a, travel, k, slack)
  {
    var jobs, clock := SequencedJobs(p, a, k), DayStart(p.onDate) + a.crewStart(k);
    if jobs != [] {
      SteadyDriveIsGood(travel, p.vans[k].homeDepot, jobs[0], clock, clock, slack);
    }
  }

  /** Where the crew has the time the matrix charges for a drive out of or back to the first depot, its own depot
      is no further. */
  ghost predicate DepotWithin(p: Problem, a: Assignment, travel: Travel, k: nat)
    requires Sized(p) && k < |p.vans|
  {
    forall j: nat :: 1 <= j <= |p.jobs| ==> DepotNear(p, a, travel, k, j)
  }

  predicate DepotNear(p: Problem, a: Assignment, travel: Travel, k: nat, j: nat)
    requires Sized(p) && k < |p.vans| && j <= |p.jobs|
  {
    var clock := DayStart(p.onDate) + a.crewStart(k);
    && (j > 0 && a.arc(k, 0, j) ==> DriveBounded(p, a, travel, k, 0, j, clock))
    && (j > 0 && a.arc(k, j, 0) ==> DriveBounded(p, a, travel, k, j, 0, clock))
  }

  /** On steady roads the matrix is exact between jobs, so it bounds every drive of a crew exactly when it bounds
      those of the crew's own depot. */
  lemma SteadyDepotIff(travel: Travel, probes: seq<Moment>, p: Problem, a: Assignment, k: nat)
    requires Sized(p) && MatrixPosed(travel, probes, p) && TimeIndependent(travel) && probes != []
    requires k < |p.vans|
    ensures Pessimistic(p, a, travel, k) <==> DepotWithin(p, a, travel, k)
  {
    var clock := DayStart(p.onDate) + a.crewStart(k);
    forall i: nat, j: nat, t: Moment |
      i <= |p.jobs| && j <= |p.jobs| && i != j && a.arc(k, i, j) && DepotWithin(p, a, travel, k)
      ensures DriveBounded(p, a, travel, k, i, j, t)
    {
      if i > 0 && j > 0 {
        ProbedIsBounded(travel, Node(p, i), Node(p, j), probes, probes[0]);
        assert travel(Node(p, i), Node(p, j), t) == travel(Node(p, i), Node(p, j), probes[0]);
      } else {
        assert DepotNear(p, a, travel, k, if i == 0 then j else i);
        assert travel(NodeOf(p, k, i), NodeOf(p, k, j), t) == travel(NodeOf(p, k, i), NodeOf(p, k, j), clock);
      }
    }
  }

  /** A crew from the depot the matrix measures from. */
  lemma FirstDepotIsWithin(travel: Travel, probes: seq<Moment>, p: Problem, a: Assignment, k: nat)
    requires Sized(p) && MatrixPosed(travel, probes, p) && TimeIndependent(travel) && probes != []
    requires k < |p.vans| && p.vans[k].homeDepot == p.vans[0].homeDepot
    ensures DepotWithin(p, a, travel, k)
  {
    var clock := DayStart(p.onDate) + a.crewStart(k);
    forall j: nat | 1 <= j <= |p.jobs| ensures DepotNear(p, a, travel, k, j) {
      ProbedIsBounded(travel, Node(p, 0), Node(p, j), probes, probes[0]);
      ProbedIsBounded(travel, Node(p, j), Node(p, 0), probes, probes[0]);
      assert travel(Node(p, 0), Node(p, j), clock) == travel(Node(p, 0), Node(p, j), probes[0]);
      assert travel(Node(p, j), Node(p, 0), clock) == travel(Node(p, j), Node(p, 0), probes[0]);
    }
  }

  /** The matrix is at least what any one probe found. */
  lemma {:induction false} ProbedIsBounded(
    travel: Travel, from: Location, to: Location, probes: seq<Moment>, probe: Moment)
    requires probe in probes
    ensures travel(from, to, probe).minutes <= WorstLeg(travel, from, to, probes)
  {
    if probe != probes[|probes| - 1] {
      assert probe in probes[..|probes| - 1];
      ProbedIsBounded(travel, from, to, probes[..|probes| - 1], probe);
    }
  }

  lemma SteadyLegs(travel: Travel, depot: Location, clock: Moment, jobs: seq<Job>, starts: seq<Moment>)
    requires TimeIndependent(travel) && |starts| == |jobs|
    ensures AllTimely(travel, depot, clock, jobs, starts)
  {
    forall i: nat | i < |jobs| ensures LegInTime(travel, depot, clock, jobs, starts, i) {
      var origin, ready := OriginOf(depot, jobs, i), ReadyFor(clock, Walk(travel, depot, clock, jobs), i);
      SteadyDriveIsGood(travel, origin, jobs[i], ready, starts[i], 0);
    }
  }

  // ------------------------------------------------------------ a single route

  predicate VisitsBy(stop: Stop, job: Job, start: Moment) {
    stop.jobId == job.id && stop.departure == stop.arrival + job.duration && stop.arrival <= start
  }

  /** The route visits the jobs in order, reaches each by its planned start, stays its full duration,
      and is out only between `begin` and `end`. */
  ghost predicate OnSchedule(route: Route, jobs: seq<Job>, starts: seq<Moment>, begin: Moment, end: Moment) {
    && route.stops != [] && |route.stops| == |jobs| == |starts|
    && (forall i: nat :: i < |jobs| ==> VisitsBy(route.stops[i], jobs[i], starts[i]))
    && I.RouteSpan(route).Some?
    && begin <= I.RouteSpan(route).value.0 < I.RouteSpan(route).value.1 <= end
  }

  lemma {:induction false} StopsInOrder(travel: Travel, depot: Location, clock: Moment, jobs: seq<Job>, i: nat)
    requires i < |jobs|
    ensures var stops := Walk(travel, depot, clock, jobs);
            stops[0].arrival - stops[0].travelMinutes < stops[i].departure
    ensures Walk(travel, depot, clock, jobs)[i].arrival >= clock
    decreases i
  {
    WalkIsConsistent(travel, depot, clock, jobs, i);
    if i > 0 {
      StopsInOrder(travel, depot, clock, jobs, i - 1);
      WalkIsConsistent(travel, depot, clock, jobs, i - 1);
    }
  }

  /** A walk over starts that suit and leave room, with no search that runs out too late, is on time throughout. */
  lemma WalkOnTime(travel: Travel, depot: Location, clock: Moment, jobs: seq<Job>, starts: seq<Moment>, i: nat)
    requires RoomForLegs(travel, depot, clock, jobs, starts) && i < |jobs|
    requires AllSuit(jobs, starts)
    requires forall h: nat :: h < |jobs| ==> LegInTime(travel, depot, clock, jobs, starts, h)
    ensures var stops := Walk(travel, depot, clock, jobs);
            && VisitsBy(stops[i], jobs[i], starts[i])
            && clock <= stops[0].arrival - stops[0].travelMinutes < stops[i].departure
  {
    NeverLaterThanPlanned(travel, depot, clock, jobs, starts, i);
    WalkIsConsistent(travel, depot, clock, jobs, i);
    WalkIsConsistent(travel, depot, clock, jobs, 0);
    StopsInOrder(travel, depot, clock, jobs, i);
  }

  /** The starts leave room for every leg and every wait, and for the drive home. */
  ghost predicate HasTime(
    travel: Travel, depot: Location, clock: Moment, jobs: seq<Job>, starts: seq<Moment>, end: Moment)
  {
    && jobs != []
    && RoomForLegs(travel, depot, clock, jobs, starts)
    && AllSuit(jobs, starts)
    && HomeFits(travel, jobs[|jobs| - 1].location, depot, clock, FreeBy(clock, jobs, starts, |jobs|), end)
  }

  /** A crew out from `clock` and free by `free` has room for the drive home from wherever it may set out. */
  ghost predicate HomeFits(travel: Travel, from: Location, depot: Location, clock: Moment, free: Moment, end: Moment) {
    forall t: Moment {:trigger travel(from, depot, t)} ::
      clock <= t <= free ==> free + travel(from, depot, t).minutes <= end
  }

  /** Pessimism is safe: with no search that runs out too late, every arrival is no later than the solver's
      start and the crew is home by its end. */
  lemma ReplayOnSchedule(
    travel: Travel, crewId: string, workerIds: seq<WorkerId>, van: Van, date: Day,
    jobs: seq<Job>, clock: Moment, starts: seq<Moment>, end: Moment)
    requires HasTime(travel, van.homeDepot, clock, jobs, starts, end)
    requires forall h: nat :: h < |jobs| ==> LegInTime(travel, van.homeDepot, clock, jobs, starts, h)
    ensures OnSchedule(Materialize(travel, crewId, workerIds, van, date, jobs, clock), jobs, starts, clock, end)
  {
    var stops := Walk(travel, van.homeDepot, clock, jobs);
    forall i: nat | i < |jobs|
      ensures VisitsBy(stops[i], jobs[i], starts[i])
      ensures clock <= stops[0].arrival - stops[0].travelMinutes < stops[i].departure
    {
      WalkOnTime(travel, van.homeDepot, clock, jobs, starts, i);
    }
    var last := stops[|jobs| - 1].departure;
    assert clock <= last <= FreeBy(clock, jobs, starts, |jobs|);
  }

  /** One leg of a walk passes the recomputation: for any travel oracle after the first. */
  lemma LegAccepted(
    world: World, travel: Travel, route: Route, van: Van, clock: Moment, jobs: seq<Job>, slack: nat, i: nat)
    requires route.stops == Walk(travel, van.homeDepot, clock, jobs) && i < |jobs|
    requires route.vanId in world.vans && world.vans[route.vanId] == van
    requires forall h :: 0 <= h < |jobs| ==> jobs[h].id in world.jobs && world.jobs[jobs[h].id] == jobs[h]
    requires forall h :: 0 <= h < |jobs| ==> route.stops[h].jobId == jobs[h].id
    ensures I.LegOk(route, I.Before(route.stops, i), route.stops[i], world, travel, slack) <==>
            i > 0 || FirstPasses(travel, van.homeDepot, jobs, clock, slack)
  {
    WalkIsConsistent(travel, van.homeDepot, clock, jobs, i);
    if i == 0 {
      WalkStepwise(travel, van.homeDepot, clock, jobs, 0);
    }
  }

  predicate FirstPasses(travel: Travel, depot: Location, jobs: seq<Job>, clock: Moment, slack: nat) {
    jobs != [] ==> FirstLegAccepted(travel, depot, jobs[0], DepartAndArrive(travel, depot, jobs[0], clock), slack)
  }

  predicate LegDecided(route: Route, world: World, travel: Travel, slack: nat, good: bool, i: nat)
    requires i < |route.stops| && forall h :: 0 <= h < |route.stops| ==> route.stops[h].jobId in world.jobs
  {
    I.LegOk(route, I.Before(route.stops, i), route.stops[i], world, travel, slack) <==> i > 0 || good
  }

  lemma FirstLegDecides(
    world: World, travel: Travel, route: Route, van: Van, clock: Moment, jobs: seq<Job>, slack: nat, good: bool)
    requires route.stops == Walk(travel, van.homeDepot, clock, jobs)
    requires route.vanId in world.vans && world.vans[route.vanId] == van
    requires forall h :: 0 <= h < |jobs| ==> jobs[h].id in world.jobs && world.jobs[jobs[h].id] == jobs[h]
    requires forall h :: 0 <= h < |jobs| ==> route.stops[h].jobId == jobs[h].id
    requires good == FirstPasses(travel, van.homeDepot, jobs, clock, slack)
    ensures forall i: nat :: i < |route.stops| ==> LegDecided(route, world, travel, slack, good, i)
  {
    forall i: nat | i < |route.stops| ensures LegDecided(route, world, travel, slack, good, i) {
      LegAccepted(world, travel, route, van, clock, jobs, slack, i);
    }
  }

  lemma OnlyTheFirstDecides(route: Route, world: World, travel: Travel, slack: nat, good: bool)
    requires forall h :: 0 <= h < |route.stops| ==> route.stops[h].jobId in world.jobs
    requires forall i: nat :: i < |route.stops| ==> LegDecided(route, world, travel, slack, good, i)
    ensures I.LegsOk(route, world, travel, slack) <==> (route.stops != [] ==> good)
  {
    I.AllStopsKnown(route.stops, world);
    if route.stops != [] {
      assert LegDecided(route, world, travel, slack, good, 0);
    }
    forall i: nat | i < |route.stops| && (i > 0 || good)
      ensures I.LegOk(route, I.Before(route.stops, i), route.stops[i], world, travel, slack)
    {
      assert LegDecided(route, world, travel, slack, good, i);
    }
  }

  /** A replayed route passes the recomputation, whatever the oracle, exactly when its first leg's road suits
      the departure it implies, which the roads and windows tell before the search. */
  lemma LegsAccepted(world: World, travel: Travel, route: Route, van: Van, clock: Moment, jobs: seq<Job>, slack: nat)
    requires route.stops == Walk(travel, van.homeDepot, clock, jobs)
    requires route.vanId in world.vans && world.vans[route.vanId] == van
    requires forall h :: 0 <= h < |jobs| ==> jobs[h].id in world.jobs && world.jobs[jobs[h].id] == jobs[h]
    requires forall h :: 0 <= h < |jobs| ==> route.stops[h].jobId == jobs[h].id
    ensures I.LegsOk(route, world, travel, slack) <==>
            (jobs != [] ==> FirstLegWillPass(travel, van.homeDepot, jobs[0], clock, slack))
  {
    var good := FirstPasses(travel, van.homeDepot, jobs, clock, slack);
    FirstLegDecides(world, travel, route, van, clock, jobs, slack, good);
    OnlyTheFirstDecides(route, world, travel, slack, good);
    FirstPassesIff(travel, van.homeDepot, jobs, clock, slack);
  }

  lemma FirstPassesIff(travel: Travel, depot: Location, jobs: seq<Job>, clock: Moment, slack: nat)
    ensures FirstPasses(travel, depot, jobs, clock, slack) <==>
            (jobs != [] ==> FirstLegWillPass(travel, depot, jobs[0], clock, slack))
  {
    if jobs != [] {
      FirstLegAcceptedIff(travel, depot, jobs[0], clock, slack);
    }
  }

  /** A visit begun at `start` suits some window: it ends within one that binds it. */
  ghost predicate WindowHolds(job: Job, start: Moment, released: set<JobId>) {
    job.windows != [] ==>
      exists w :: w in job.windows && start >= w.start
        && (I.IsBinding(job, w, released) ==> start + job.duration <= w.end)
  }

  /** A visit that begins at `t` lies wholly inside some window. */
  predicate Inside(windows: seq<Window>, duration: int, t: Moment) {
    exists w :: w in windows && w.start <= t && t + duration <= w.end
  }

  /** `v` is open by `t`, and a visit from `t` would end within `w`, which is long enough for one. */
  predicate Tempts(v: Window, w: Window, duration: int, t: Moment) {
    v.hardness.Soft? && w.start + duration <= w.end && v.start <= t && t + duration <= w.end
  }

  /** A soft window never tempts the replay outside all windows: wherever it is open and a long enough
      window has not yet closed, some window holds the visit. */
  ghost predicate StaysInside(windows: seq<Window>, duration: int) {
    forall v, w, t :: v in windows && w in windows && Tempts(v, w, duration, t) ==> Inside(windows, duration, t)
  }

  /** A replay in time for a start that suits begins when it suits. */
  ghost predicate ReplaysWell(job: Job, ready: Moment, start: Moment, released: set<JobId>) {
    ready <= start && WindowHolds(job, start, released) ==> WindowHolds(job, EarliestStart(job, ready), released)
  }

  /** What a promise asks of its windows, unless the checker was told it is released. */
  ghost predicate PromiseHolds(job: Job, released: set<JobId>) {
    job.commitment.Confirmed? && job.id !in released ==> StaysInside(job.windows, job.duration)
  }

  lemma StayingInsideSuffices(job: Job, ready: Moment, start: Moment, released: set<JobId>)
    requires job.windows != [] && PromiseHolds(job, released)
    ensures ReplaysWell(job, ready, start, released)
  {
    if ready <= start && WindowHolds(job, start, released) {
      EarliestStartIsLeast(job.windows, job.duration, ready);
      var w :| w in job.windows && start >= w.start
               && (I.IsBinding(job, w, released) ==> start + job.duration <= w.end);
      assert Fits(w, job.duration, ready);
      var t := EarliestStart(job, ready);
      var v :| v in job.windows && Fits(v, job.duration, ready) && t == Max(ready, v.start);
      if v.hardness.Soft? && I.IsBinding(job, v, released) {
        assert Tempts(v, w, job.duration, t);
      }
    }
  }

  /** Exactly when a job's replay always suits its windows, whenever the crew is ready in time for a start that does:
      the windows of a promise decide, and nothing is asked of other jobs or of a promise known to be released. */
  lemma PromiseHoldsIff(job: Job, released: set<JobId>)
    requires job.windows != []
    ensures (forall ready, start :: ReplaysWell(job, ready, start, released)) <==> PromiseHolds(job, released)
  {
    if PromiseHolds(job, released) {
      forall ready, start ensures ReplaysWell(job, ready, start, released) {
        StayingInsideSuffices(job, ready, start, released);
      }
    } else {
      var v, w, t :| v in job.windows && w in job.windows && Tempts(v, w, job.duration, t)
        && !Inside(job.windows, job.duration, t);
      EarliestStartIsLeast(job.windows, job.duration, t);
      assert Fits(v, job.duration, t) && EarliestStart(job, t) == t;
      assert WindowHolds(job, Max(t, w.start), released);
      assert !ReplaysWell(job, t, Max(t, w.start), released);
    }
  }

  /** One window, or hard windows only, always hold a promise. */
  lemma PlainPromisesHold(windows: seq<Window>, duration: int)
    requires |windows| <= 1 || forall w :: w in windows ==> w.hardness.Hard?
    ensures StaysInside(windows, duration)
  {
  }

  predicate SomeWindowHolds(job: Job, stop: Stop, released: set<JobId>) {
    exists i :: 0 <= i < |job.windows| && I.Satisfies(job, job.windows[i], stop, released)
  }

  /** A visit satisfies the checker exactly when it begins when it suits. */
  lemma SuitingIsSatisfying(job: Job, stop: Stop, released: set<JobId>)
    requires job.windows != [] && stop.departure == stop.arrival + job.duration
    ensures SomeWindowHolds(job, stop, released) <==> WindowHolds(job, stop.arrival, released)
  {
    if WindowHolds(job, stop.arrival, released) {
      var w :| w in job.windows && stop.arrival >= w.start
               && (I.IsBinding(job, w, released) ==> stop.arrival + job.duration <= w.end);
      var y :| 0 <= y < |job.windows| && job.windows[y] == w;
      assert I.Satisfies(job, job.windows[y], stop, released);
    }
    if SomeWindowHolds(job, stop, released) {
      var y :| 0 <= y < |job.windows| && I.Satisfies(job, job.windows[y], stop, released);
      assert job.windows[y] in job.windows;
    }
  }

  /** The window the replay picks satisfies the checker, which was told of the promises in `released`. */
  lemma PickedWindowSatisfies(job: Job, ready: Moment, start: Moment, stop: Stop, released: set<JobId>)
    requires job.windows != [] && stop.arrival == EarliestStart(job, ready)
    requires stop.departure == stop.arrival + job.duration
    requires PromiseHolds(job, released) && WindowHolds(job, start, released) && ready <= start
    ensures SomeWindowHolds(job, stop, released)
  {
    StayingInsideSuffices(job, ready, start, released);
    SuitingIsSatisfying(job, stop, released);
  }

  /** With two soft windows, a promise can be replayed into the one it overruns. */
  lemma TwoSoftWindowsCanBreakAPromise()
    ensures exists job: Job, start: Moment, ready: Moment ::
              && job.commitment.Confirmed? && WindowHolds(job, start, {}) && ready <= start
              && EarliestStart(job, ready) <= start
              && forall i :: 0 <= i < |job.windows| ==>
                   !I.Satisfies(job, job.windows[i],
                                Stop(job.id, EarliestStart(job, ready),
                                     EarliestStart(job, ready) + job.duration, 0, 0.0), {})
  {
    var early, late := Window(0, 30, Soft), Window(100, 200, Soft);
    var job := Job("j", "", Location(0.0, 0.0), None, {}, 1, 60, [], [early, late], Confirmed, 0, 0, 0);
    EarliestStartIsLeast(job.windows, 60, 10);
    assert Fits(early, 60, 10) && early in job.windows;
    assert EarliestStart(job, 10) == 10;
    assert WindowHolds(job, 100, {}) by { assert late in job.windows; }
  }

  /** With one window, a visit by a start that suits it and no sooner than it opens satisfies the checker. */
  lemma OneWindowSatisfies(job: Job, ready: Moment, start: Moment, stop: Stop, released: set<JobId>)
    requires |job.windows| == 1 && ready <= stop.arrival <= start && EarliestStart(job, ready) <= stop.arrival
    requires stop.departure == stop.arrival + job.duration && WindowHolds(job, start, released)
    ensures I.Satisfies(job, job.windows[0], stop, released)
  {
    var w :| w in job.windows && start >= w.start && (I.IsBinding(job, w, released) ==> start + job.duration <= w.end);
    EarliestStartIsLeast(job.windows, job.duration, ready);
    assert w == job.windows[0] && Fits(w, job.duration, ready);
  }

  lemma StopAccepted(
    world: World, travel: Travel, depot: Location, clock: Moment, jobs: seq<Job>, starts: seq<Moment>,
    released: set<JobId>, i: nat)
    requires i < |jobs| == |starts| && jobs[i].id in world.jobs && world.jobs[jobs[i].id] == jobs[i]
    requires Walk(travel, depot, clock, jobs)[i].arrival <= starts[i] && WindowHolds(jobs[i], starts[i], released)
    requires PromiseSafe(travel, depot, clock, jobs, i, released)
    ensures I.StopInWindow(Walk(travel, depot, clock, jobs)[i], world, released)
  {
    var job, stop := jobs[i], Walk(travel, depot, clock, jobs)[i];
    FromTheDoor(travel, depot, clock, jobs, i);
    if job.windows != [] {
      VisitSatisfies(job, Door(travel, depot, clock, jobs, i), starts[i], stop, released);
      FiledVisitInWindow(world, job, stop, released);
    }
  }

  /** The visit begins no sooner than service can, once the crew is at the door, and just then if the drive is
      punctual. */
  lemma FromTheDoor(travel: Travel, depot: Location, clock: Moment, jobs: seq<Job>, i: nat)
    requires i < |jobs|
    ensures var stop, there := Walk(travel, depot, clock, jobs)[i], Door(travel, depot, clock, jobs, i);
            && stop.jobId == jobs[i].id && stop.departure == stop.arrival + jobs[i].duration
            && there <= stop.arrival && EarliestStart(jobs[i], there) <= stop.arrival
            && (PunctualAt(travel, depot, clock, jobs, i) ==> stop.arrival == EarliestStart(jobs[i], there))
  {
    var origin, ready := OriginOf(depot, jobs, i), ReadyFor(clock, Walk(travel, depot, clock, jobs), i);
    WalkStepwise(travel, depot, clock, jobs, i);
    DriveIsHonest(travel, origin, jobs[i], ready);
    DriveIsPunctual(travel, origin, jobs[i], ready);
  }

  lemma FiledVisitInWindow(world: World, job: Job, stop: Stop, released: set<JobId>)
    requires stop.jobId == job.id && job.id in world.jobs && world.jobs[job.id] == job
    requires stop.arrival >= job.requestedAt
    requires SomeWindowHolds(job, stop, released)
    ensures I.StopInWindow(stop, world, released)
  {
  }

  /** Nobody is at a door before the crew set out and did the work before. */
  lemma DoorComesLate(travel: Travel, depot: Location, clock: Moment, jobs: seq<Job>, i: nat)
    requires i < |jobs|
    ensures Door(travel, depot, clock, jobs, i) >= clock + WorkBefore(jobs, i)
  {
    ReadyAfterWork(travel, depot, clock, jobs, i);
  }

  /** How long the jobs before job `i` take. */
  function WorkBefore(jobs: seq<Job>, i: nat): nat
    requires i <= |jobs|
  {
    if i == 0 then 0 else WorkBefore(jobs, i - 1) + jobs[i - 1].duration
  }

  lemma {:induction false} ReadyAfterWork(travel: Travel, depot: Location, clock: Moment, jobs: seq<Job>, i: nat)
    requires i <= |jobs|
    ensures ReadyFor(clock, Walk(travel, depot, clock, jobs), i) >= clock + WorkBefore(jobs, i)
    decreases i
  {
    if i > 0 {
      ReadyAfterWork(travel, depot, clock, jobs, i - 1);
      WalkIsConsistent(travel, depot, clock, jobs, i - 1);
    }
  }

  /** Asked for in time for a crew that drove nowhere and did the jobs before. */
  lemma WorkBeforeSuffices(
    travel: Travel, depot: Location, clock: Moment, jobs: seq<Job>, i: nat, released: set<JobId>)
    requires i < |jobs| && AskedInTime(jobs[i], clock + WorkBefore(jobs, i), released)
    ensures AskedAt(travel, depot, clock, jobs, i, released)
  {
    DoorComesLate(travel, depot, clock, jobs, i);
    AskedStaysInTime(jobs[i], clock + WorkBefore(jobs, i), Door(travel, depot, clock, jobs, i), released);
  }

  /** Work asked for in time for a crew at the door by `lo` is so for one that comes later. */
  lemma AskedStaysInTime(job: Job, lo: Moment, later: Moment, released: set<JobId>)
    requires AskedInTime(job, lo, released) && lo <= later
    ensures AskedInTime(job, later, released)
  {
    forall w | w in job.windows && Fits(w, job.duration, later)
      && exists start :: start >= later && WindowHolds(job, start, released)
      ensures job.requestedAt <= Max(later, w.start)
    {
      var start :| start >= later && WindowHolds(job, start, released);
      assert start >= lo && Fits(w, job.duration, lo);
    }
  }

  /** Where no window binds, a visit no sooner than service can begin satisfies the checker. */
  lemma LooseWindowsSatisfy(job: Job, there: Moment, start: Moment, stop: Stop, released: set<JobId>)
    requires job.windows != [] && !SomeBinds(job, released)
    requires there <= start && WindowHolds(job, start, released) && EarliestStart(job, there) <= stop.arrival
    ensures SomeWindowHolds(job, stop, released)
  {
    EarliestStartIsLeast(job.windows, job.duration, there);
    var w :| w in job.windows && start >= w.start;
    assert !I.IsBinding(job, w, released) && Fits(w, job.duration, there);
    var v :| v in job.windows && Fits(v, job.duration, there) && EarliestStart(job, there) == Max(there, v.start);
    var y :| 0 <= y < |job.windows| && job.windows[y] == v;
    assert I.Satisfies(job, job.windows[y], stop, released);
  }

  /** A visit by a start that suits, by a crew at the door by `there`, satisfies the checker: with several windows of
      which some bind, one begun when service first can. */
  lemma VisitSatisfies(job: Job, there: Moment, start: Moment, stop: Stop, released: set<JobId>)
    requires job.windows != [] && AskedInTime(job, there, released)
    requires there <= stop.arrival <= start && EarliestStart(job, there) <= stop.arrival
    requires |job.windows| > 1 && SomeBinds(job, released) ==> stop.arrival == EarliestStart(job, there)
    requires stop.departure == stop.arrival + job.duration
    requires WindowHolds(job, start, released) && PromiseHolds(job, released)
    ensures SomeWindowHolds(job, stop, released) && stop.arrival >= job.requestedAt
  {
    AskedIsReplayed(job, there, there, start, released);
    if |job.windows| == 1 {
      OneWindowSatisfies(job, there, start, stop, released);
      assert I.Satisfies(job, job.windows[0], stop, released);
    } else if !SomeBinds(job, released) {
      LooseWindowsSatisfy(job, there, start, stop, released);
    } else {
      PickedWindowSatisfies(job, there, start, stop, released);
    }
  }

  /** A visit replayed in time for a start that suits comes after the job's request. */
  ghost predicate ReplayedAfterRequest(job: Job, lo: Moment, ready: Moment, start: Moment, released: set<JobId>) {
    lo <= ready <= start && WindowHolds(job, start, released) ==> job.requestedAt <= EarliestStart(job, ready)
  }

  /** No window that a crew at the door by `lo` could use opens before the request, if any start from then on suits. */
  ghost predicate AskedInTime(job: Job, lo: Moment, released: set<JobId>) {
    job.windows != [] && (exists start :: start >= lo && WindowHolds(job, start, released)) ==>
      forall w :: w in job.windows && Fits(w, job.duration, lo) ==> job.requestedAt <= Max(lo, w.start)
  }

  /** Exactly when no replay in time, by a crew at the door no sooner than `lo`, comes before the request. */
  lemma AskedInTimeIff(job: Job, lo: Moment, released: set<JobId>)
    requires job.windows != []
    ensures (forall ready, start :: ReplayedAfterRequest(job, lo, ready, start, released)) <==>
            AskedInTime(job, lo, released)
  {
    if AskedInTime(job, lo, released) {
      forall ready, start ensures ReplayedAfterRequest(job, lo, ready, start, released) {
        AskedIsReplayed(job, lo, ready, start, released);
      }
    } else {
      var start, w :| start >= lo && WindowHolds(job, start, released)
        && w in job.windows && Fits(w, job.duration, lo) && job.requestedAt > Max(lo, w.start);
      EarliestStartIsLeast(job.windows, job.duration, lo);
      assert !ReplayedAfterRequest(job, lo, lo, start, released);
    }
  }

  lemma AskedIsReplayed(job: Job, lo: Moment, ready: Moment, start: Moment, released: set<JobId>)
    requires job.windows != [] && AskedInTime(job, lo, released)
    ensures ReplayedAfterRequest(job, lo, ready, start, released)
  {
    if lo <= ready <= start && WindowHolds(job, start, released) {
      EarliestStartIsLeast(job.windows, job.duration, ready);
      var w :| w in job.windows && start >= w.start
               && (I.IsBinding(job, w, released) ==> start + job.duration <= w.end);
      assert Fits(w, job.duration, ready);
      var t := EarliestStart(job, ready);
      var v :| v in job.windows && Fits(v, job.duration, ready) && t == Max(ready, v.start);
      assert Fits(v, job.duration, lo);
    }
  }

  /** Work asked for during the day can be replayed before it was asked for. */
  lemma RequestsCanComeLate()
    ensures exists job: Job, lo: Moment, start: Moment ::
              && job.windows != [] && lo <= start && WindowHolds(job, start, {})
              && EarliestStart(job, lo) <= start && EarliestStart(job, lo) < job.requestedAt
  {
    var w := Window(480, 1020, Soft);
    var job := Job("j", "", Location(0.0, 0.0), None, {}, 1, 60, [], [w], Provisional, 0, 0, 720);
    EarliestStartIsLeast(job.windows, 60, 480);
    assert w in job.windows && Fits(w, 60, 480);
    assert WindowHolds(job, 800, {});
    assert EarliestStart(job, 480) == 480;
  }

  /** Exactly when a start that needs no window lets every replay in time for it satisfy the checker and wait no longer
      than it: when it suits the windows, those that bind a promise, or a promise known to be released. */
  lemma ReleasedStartSuitsIff(job: Job, start: Moment, released: set<JobId>)
    requires job.windows != [] && PromiseHolds(job, released)
    ensures WindowHolds(job, start, released) <==>
            forall ready :: ready <= start ==> VisitSuits(job, ready, start, released)
  {
    if WindowHolds(job, start, released) {
      forall ready | ready <= start ensures VisitSuits(job, ready, start, released) {
        HoldingSuits(job, start, released);
        StartNoLaterThanSuitable(job, ready, start);
        StayingInsideSuffices(job, ready, start, released);
        SuitingIsSatisfying(job, VisitAt(job, EarliestStart(job, ready)), released);
      }
    } else {
      EarliestStartNotBefore(job, start);
      SuitingIsSatisfying(job, VisitAt(job, start), released);
      assert !VisitSuits(job, start, start, released);
    }
  }

  function VisitAt(job: Job, t: Moment): Stop { Stop(job.id, t, t + job.duration, 0, 0.0) }

  /** The visit of a crew ready at `ready` begins by `start` and satisfies the checker. */
  ghost predicate VisitSuits(job: Job, ready: Moment, start: Moment, released: set<JobId>) {
    var t := EarliestStart(job, ready);
    t <= start && SomeWindowHolds(job, VisitAt(job, t), released)
  }

  lemma HoldingSuits(job: Job, start: Moment, released: set<JobId>)
    requires WindowHolds(job, start, released)
    ensures StartSuits(job, start)
  {
  }

  predicate JobsFiled(world: World, jobs: seq<Job>) {
    forall i :: 0 <= i < |jobs| ==> jobs[i].id in world.jobs && world.jobs[jobs[i].id] == jobs[i]
  }

  /** Each job's promise is safe to replay, and no replay comes before its request. */
  ghost predicate PromisesSafe(
    travel: Travel, depot: Location, clock: Moment, jobs: seq<Job>, released: set<JobId>)
  {
    forall i: nat :: i < |jobs| ==> PromiseSafe(travel, depot, clock, jobs, i, released)
  }

  ghost predicate PromiseSafe(
    travel: Travel, depot: Location, clock: Moment, jobs: seq<Job>, i: nat, released: set<JobId>)
    requires i < |jobs|
  {
    && PromiseHolds(jobs[i], released) && AskedAt(travel, depot, clock, jobs, i, released)
    && PunctualWhereBound(travel, depot, clock, jobs, i, released)
  }

  /** Each stop is reached by a start that suits the job's windows. */
  ghost predicate KeepsToStarts(stops: seq<Stop>, jobs: seq<Job>, starts: seq<Moment>, released: set<JobId>) {
    && |stops| == |jobs| == |starts|
    && forall i: nat {:trigger WindowHolds(jobs[i], starts[i], released)} ::
         i < |jobs| ==> stops[i].arrival <= starts[i] && WindowHolds(jobs[i], starts[i], released)
  }

  lemma WindowsAccepted(
    world: World, travel: Travel, route: Route, depot: Location, clock: Moment, jobs: seq<Job>, starts: seq<Moment>,
    released: set<JobId>)
    requires route.stops == Walk(travel, depot, clock, jobs)
    requires JobsFiled(world, jobs) && PromisesSafe(travel, depot, clock, jobs, released)
    requires KeepsToStarts(route.stops, jobs, starts, released)
    ensures I.WindowsOk(route, world, released)
  {
    forall i: nat | i < |route.stops| ensures I.StopInWindow(route.stops[i], world, released) {
      assert PromiseSafe(travel, depot, clock, jobs, i, released) && WindowHolds(jobs[i], starts[i], released);
      StopAccepted(world, travel, depot, clock, jobs, starts, released, i);
    }
  }

  // ------------------------------------------------------------- crew by crew

  /** The solver's starts for a crew's sequence, as moments. */
  function Starts(p: Problem, a: Assignment, k: nat): (r: seq<Moment>)
    ensures |r| == |Sequence(p, a, k)|
    ensures forall i :: 0 <= i < |r| ==> r[i] == DayStart(p.onDate) + a.start(Sequence(p, a, k)[i], k)
  {
    var s := Sequence(p, a, k);
    seq(|s|, i requires 0 <= i < |s| => DayStart(p.onDate) + a.start(s[i], k))
  }

  /** The node a crew drives from to position `i` of its sequence. */
  function NodeBefore(s: seq<nat>, i: nat): nat
    requires i < |s|
  {
    if i == 0 then 0 else s[i - 1] + 1
  }

  /** The crew's sequence enters position `i` by an arc that leaves room, for a start within its hours. */
  predicate EnteredInTime(p: Problem, a: Assignment, k: nat, s: seq<nat>, i: nat)
    requires Sized(p) && i < |s|
  {
    && s[i] < |p.jobs| && NodeBefore(s, i) <= |p.jobs| && NodeBefore(s, i) != s[i] + 1
    && a.arc(k, NodeBefore(s, i), s[i] + 1) && ArcLeavesRoom(p, a, k, NodeBefore(s, i), s[i] + 1)
    && a.start(s[i], k) <= a.crewEnd(k)
  }

  lemma LegIsRoomy(
    p: Problem, a: Assignment, travel: Travel, k: nat, s: seq<nat>, starts: seq<Moment>, i: nat, t: Moment)
    requires Sized(p) && k < |p.vans| && Pessimistic(p, a, travel, k) && i < |s| == |starts|
    requires forall h :: 0 <= h < |s| ==> s[h] < |p.jobs| && starts[h] == DayStart(p.onDate) + a.start(s[h], k)
    requires EnteredInTime(p, a, k, s, i)
    ensures RoomAt(travel, p.vans[k].homeDepot, DayStart(p.onDate) + a.crewStart(k), JobsAt(p, s), starts, i, t)
  {
    assert DriveBounded(p, a, travel, k, NodeBefore(s, i), s[i] + 1, t);
  }

  lemma StartsLeaveRoom(p: Problem, a: Assignment, travel: Travel, k: nat, s: seq<nat>, starts: seq<Moment>)
    requires Sized(p) && k < |p.vans| && Pessimistic(p, a, travel, k) && |s| == |starts|
    requires forall i: nat :: i < |s| ==> EnteredInTime(p, a, k, s, i)
    requires forall h :: 0 <= h < |s| ==> s[h] < |p.jobs| && starts[h] == DayStart(p.onDate) + a.start(s[h], k)
    ensures RoomForLegs(travel, p.vans[k].homeDepot, DayStart(p.onDate) + a.crewStart(k), JobsAt(p, s), starts)
  {
    var jobs, clock := JobsAt(p, s), DayStart(p.onDate) + a.crewStart(k);
    forall i: nat, t: Moment | i < |jobs| ensures RoomAt(travel, p.vans[k].homeDepot, clock, jobs, starts, i, t) {
      LegIsRoomy(p, a, travel, k, s, starts, i, t);
    }
  }

  lemma SelectedWindowSuits(p: Problem, a: Assignment, j: nat, k: nat, released: set<JobId>)
    requires Feasible(p, a) && j < |p.jobs| && k < |p.vans| && a.visit(j, k) && !a.released(j)
    ensures StartSuits(p.jobs[j], DayStart(p.onDate) + a.start(j, k))
    ensures WindowHolds(p.jobs[j], DayStart(p.onDate) + a.start(j, k), released)
  {
    if p.jobs[j].windows != [] {
      var w :| 0 <= w < |p.jobs[j].windows| && a.selector(j, k, w);
      assert SelectorMeans(p, a, j, k, w);
      assert p.jobs[j].windows[w] in p.jobs[j].windows;
    }
  }

  /** The route's stops are those of the crew's sequence. */
  ghost predicate Carries(p: Problem, a: Assignment, k: nat, route: Route) {
    var jobs := SequencedJobs(p, a, k);
    |route.stops| == |jobs| && forall i :: 0 <= i < |jobs| ==> route.stops[i].jobId == jobs[i].id
  }

  /** The route is crew `k`'s: its people, its van, the day, and its jobs in order. */
  ghost predicate OfCrew(p: Problem, a: Assignment, k: nat, route: Route)
    requires k < |p.vans|
  {
    && route.workerIds == CrewIds(p, a, k, |p.workers|)
    && route.vanId == p.vans[k].id && route.date == p.onDate
    && Carries(p, a, k, route)
  }

  /** Besides, it reaches every job by its start and is out only within the crew's hours. */
  ghost predicate RunsOnTime(p: Problem, a: Assignment, k: nat, route: Route)
    requires k < |p.vans|
  {
    && OfCrew(p, a, k, route)
    && OnSchedule(route, SequencedJobs(p, a, k), Starts(p, a, k),
                  DayStart(p.onDate) + a.crewStart(k), DayStart(p.onDate) + a.crewEnd(k))
  }

  lemma HomeByTheEnd(p: Problem, a: Assignment, travel: Travel, k: nat, j: nat, t: Moment)
    requires Tours(p, a, k) && k < |p.vans| && Pessimistic(p, a, travel, k)
    requires j < |p.jobs| && a.arc(k, j + 1, 0)
    requires a.crewStart(k) <= t - DayStart(p.onDate) <= a.start(j, k) + p.jobs[j].duration
    ensures a.start(j, k) + p.jobs[j].duration + travel(p.jobs[j].location, p.vans[k].homeDepot, t).minutes
              <= a.crewEnd(k)
  {
    assert ArcLeavesRoom(p, a, k, j + 1, 0);
    assert DriveBounded(p, a, travel, k, j + 1, 0, t);
  }

  lemma SequenceHasRoom(p: Problem, a: Assignment, travel: Travel, k: nat)
    requires Feasible(p, a) && k < |p.vans| && a.active(k) && Pessimistic(p, a, travel, k)
    ensures RoomForLegs(travel, p.vans[k].homeDepot, DayStart(p.onDate) + a.crewStart(k), SequencedJobs(p, a, k),
              Starts(p, a, k))
  {
    SequenceIsWalkable(p, a, k);
    SequenceFacts(p, a, k);
    StartsLeaveRoom(p, a, travel, k, Sequence(p, a, k), Starts(p, a, k));
  }

  lemma SequenceIsWalkable(p: Problem, a: Assignment, k: nat)
    requires Feasible(p, a) && k < |p.vans| && a.active(k)
    ensures var s := Sequence(p, a, k); forall i: nat :: i < |s| ==> EnteredInTime(p, a, k, s, i)
  {
    assert Circuit(p, a, k) && TravelRules(p, a, k);
    SequenceFacts(p, a, k);
    SequenceIsTheTour(p, a, k);
    var s := Sequence(p, a, k);
    forall i: nat | i < |s| ensures EnteredInTime(p, a, k, s, i) {
      LinkIsInTime(p, a, k, s, i);
    }
  }

  lemma LinkIsInTime(p: Problem, a: Assignment, k: nat, s: seq<nat>, i: nat)
    requires Feasible(p, a) && k < |p.vans| && Tours(p, a, k) && i < |s| && Linked(a, k, s, i)
    requires forall h :: 0 <= h < |s| ==> s[h] < |p.jobs| && a.visit(s[h], k)
    ensures EnteredInTime(p, a, k, s, i)
  {
    assert a.arc(k, NodeBefore(s, i), s[i] + 1);
    assert ArcLeavesRoom(p, a, k, NodeBefore(s, i), s[i] + 1);
  }

  lemma SequenceSuits(p: Problem, a: Assignment, k: nat, i: nat, released: set<JobId>)
    requires Feasible(p, a) && k < |p.vans| && ReleasedSuit(p, a, k, released) && i < |Sequence(p, a, k)|
    ensures StartSuits(SequencedJobs(p, a, k)[i], Starts(p, a, k)[i])
    ensures WindowHolds(SequencedJobs(p, a, k)[i], Starts(p, a, k)[i], released)
  {
    SequenceFacts(p, a, k);
    var j := Sequence(p, a, k)[i];
    if a.released(j) {
      assert WindowHolds(p.jobs[j], DayStart(p.onDate) + a.start(j, k), released);
    } else {
      SelectedWindowSuits(p, a, j, k, released);
    }
    HoldingSuits(SequencedJobs(p, a, k)[i], Starts(p, a, k)[i], released);
  }

  lemma SequenceEndsInTime(p: Problem, a: Assignment, travel: Travel, k: nat)
    requires Feasible(p, a) && k < |p.vans| && a.active(k) && Pessimistic(p, a, travel, k)
    ensures var jobs, starts, clock := SequencedJobs(p, a, k), Starts(p, a, k), DayStart(p.onDate) + a.crewStart(k);
            && jobs != []
            && HomeFits(travel, jobs[|jobs| - 1].location, p.vans[k].homeDepot, clock,
                        FreeBy(clock, jobs, starts, |jobs|), DayStart(p.onDate) + a.crewEnd(k))
  {
    LastArcIsHome(p, a, k);
    var jobs, starts, clock := SequencedJobs(p, a, k), Starts(p, a, k), DayStart(p.onDate) + a.crewStart(k);
    var s := Sequence(p, a, k);
    var from, free := jobs[|jobs| - 1].location, FreeBy(clock, jobs, starts, |jobs|);
    forall t: Moment {:trigger travel(from, p.vans[k].homeDepot, t)} | clock <= t <= free
      ensures free + travel(from, p.vans[k].homeDepot, t).minutes <= DayStart(p.onDate) + a.crewEnd(k)
    {
      HomeByTheEnd(p, a, travel, k, s[|s| - 1], t);
    }
  }

  lemma LastArcIsHome(p: Problem, a: Assignment, k: nat)
    requires Feasible(p, a) && k < |p.vans| && a.active(k)
    ensures var s := Sequence(p, a, k);
            Tours(p, a, k) && s != [] && s[|s| - 1] < |p.jobs| && a.arc(k, s[|s| - 1] + 1, 0)
  {
    assert Circuit(p, a, k) && TravelRules(p, a, k);
    SequenceFacts(p, a, k);
    SequenceIsTheTour(p, a, k);
  }

  /** What the solver's side provides for a crew's replay. */
  ghost predicate WellPlanned(p: Problem, a: Assignment, travel: Travel, k: nat)
    requires k < |p.vans|
  {
    HasTime(travel, p.vans[k].homeDepot, DayStart(p.onDate) + a.crewStart(k), SequencedJobs(p, a, k), Starts(p, a, k),
            DayStart(p.onDate) + a.crewEnd(k))
  }

  lemma SolutionsAreWellPlanned(p: Problem, a: Assignment, travel: Travel, k: nat, released: set<JobId>)
    requires Feasible(p, a) && k < |p.vans| && a.active(k) && Pessimistic(p, a, travel, k)
    requires ReleasedSuit(p, a, k, released)
    ensures WellPlanned(p, a, travel, k)
  {
    var jobs := SequencedJobs(p, a, k);
    SequenceHasRoom(p, a, travel, k);
    SequenceEndsInTime(p, a, travel, k);
    forall i: nat | i < |jobs| ensures StartSuits(jobs[i], Starts(p, a, k)[i]) {
      SequenceSuits(p, a, k, i, released);
    }
  }

  /** The route emitted for a crew is that crew's, whatever the roads. */
  lemma CrewRouteIsOfCrew(p: Problem, a: Assignment, travel: Travel, k: nat)
    requires k < |p.vans|
    ensures OfCrew(p, a, k, CrewRoute(p, a, travel, k))
  {
    EmittedRoutesCarry(p, a, travel, k);
  }

  lemma WellPlannedRunsOnTime(p: Problem, a: Assignment, travel: Travel, k: nat)
    requires k < |p.vans| && WellPlanned(p, a, travel, k) && Timely(p, a, travel, k)
    ensures RunsOnTime(p, a, k, CrewRoute(p, a, travel, k))
  {
    WellPlannedKeepsSchedule(p, a, travel, k);
    CrewRouteIsOfCrew(p, a, travel, k);
  }

  lemma WellPlannedKeepsSchedule(p: Problem, a: Assignment, travel: Travel, k: nat)
    requires k < |p.vans| && WellPlanned(p, a, travel, k) && Timely(p, a, travel, k)
    ensures OnSchedule(CrewRoute(p, a, travel, k), SequencedJobs(p, a, k), Starts(p, a, k),
                       DayStart(p.onDate) + a.crewStart(k), DayStart(p.onDate) + a.crewEnd(k))
  {
    CrewRouteOnSchedule(p, a, travel, k, SequencedJobs(p, a, k), DayStart(p.onDate) + a.crewStart(k), Starts(p, a, k),
                        DayStart(p.onDate) + a.crewEnd(k));
  }

  lemma CrewRouteOnSchedule(
    p: Problem, a: Assignment, travel: Travel, k: nat, jobs: seq<Job>, clock: Moment, starts: seq<Moment>, end: Moment)
    requires k < |p.vans| && jobs == SequencedJobs(p, a, k) && clock == DayStart(p.onDate) + a.crewStart(k)
    requires HasTime(travel, p.vans[k].homeDepot, clock, jobs, starts, end)
    requires |starts| == |jobs| && AllTimely(travel, p.vans[k].homeDepot, clock, jobs, starts)
    ensures OnSchedule(CrewRoute(p, a, travel, k), jobs, starts, clock, end)
  {
    TimelyReplayOnSchedule(travel, CrewIdOf(p.vans[k]), CrewIds(p, a, k, |p.workers|), p.vans[k], p.onDate,
                           jobs, clock, starts, end);
  }

  lemma TimelyReplayOnSchedule(
    travel: Travel, crewId: string, workerIds: seq<WorkerId>, van: Van, date: Day,
    jobs: seq<Job>, clock: Moment, starts: seq<Moment>, end: Moment)
    requires HasTime(travel, van.homeDepot, clock, jobs, starts, end)
    requires AllTimely(travel, van.homeDepot, clock, jobs, starts)
    ensures OnSchedule(Materialize(travel, crewId, workerIds, van, date, jobs, clock), jobs, starts, clock, end)
  {
    ReplayOnSchedule(travel, crewId, workerIds, van, date, jobs, clock, starts, end);
  }

  // ----------------------------------------------------------- check by check

  lemma JobsAreFiled(world: World, travel: Travel, onDate: Day, ids: seq<JobId>, pinned: map<JobId, seq<WorkerId>>,
                     params: Params, probes: seq<Moment>, p: Problem)
    requires Poses(world, travel, onDate, ids, pinned, params, probes, p) && WellKeyed(world)
    ensures forall j :: 0 <= j < |p.jobs| ==> IsCandidate(world, onDate, p.jobs[j].id) && p.jobs[j].id in ids
    ensures forall j :: 0 <= j < |p.jobs| ==> p.jobs[j].id in world.jobs && world.jobs[p.jobs[j].id] == p.jobs[j]
    ensures Distinct(ids) ==> forall i, j :: 0 <= i < j < |p.jobs| ==> p.jobs[i].id != p.jobs[j].id
  {
    var eligible := Eligible(world, onDate, ids);
    forall j | 0 <= j < |p.jobs| ensures IsCandidate(world, onDate, p.jobs[j].id) && p.jobs[j].id == eligible[j] {
      assert eligible[j] in eligible;
    }
  }

  /** The world files each sequenced job and each crew member under the id the route gives. */
  ghost predicate Filed(world: World, p: Problem) {
    && (forall j :: 0 <= j < |p.jobs| ==> p.jobs[j].id in world.jobs && world.jobs[p.jobs[j].id] == p.jobs[j])
    && (forall i :: 0 <= i < |p.workers| ==>
        p.workers[i].id in world.workers && world.workers[p.workers[i].id] == p.workers[i])
    && (forall k :: 0 <= k < |p.vans| ==> p.vans[k].id in world.vans && world.vans[p.vans[k].id] == p.vans[k])
  }

  lemma WalkNames(travel: Travel, depot: Location, clock: Moment, jobs: seq<Job>)
    ensures forall i :: 0 <= i < |jobs| ==> Walk(travel, depot, clock, jobs)[i].jobId == jobs[i].id
  {
    forall i | 0 <= i < |jobs| ensures Walk(travel, depot, clock, jobs)[i].jobId == jobs[i].id {
      WalkStepwise(travel, depot, clock, jobs, i);
    }
  }

  lemma EmittedRoutesCarry(p: Problem, a: Assignment, travel: Travel, k: nat)
    requires k < |p.vans|
    ensures Carries(p, a, k, CrewRoute(p, a, travel, k))
  {
    var jobs := SequencedJobs(p, a, k);
    WalkNames(travel, p.vans[k].homeDepot, DayStart(p.onDate) + a.crewStart(k), jobs);
  }

  lemma SequencedJobsFiled(world: World, p: Problem, a: Assignment, k: nat)
    requires Filed(world, p)
    ensures JobsFiled(world, SequencedJobs(p, a, k))
  {
    SequenceFacts(p, a, k);
  }

  lemma StopJobFiled(world: World, p: Problem, a: Assignment, k: nat, route: Route, i: nat)
    requires k < |p.vans| && Filed(world, p) && Carries(p, a, k, route) && i < |route.stops|
    ensures Sequence(p, a, k)[i] < |p.jobs| && a.visit(Sequence(p, a, k)[i], k)
    ensures route.stops[i].jobId in world.jobs
    ensures world.jobs[route.stops[i].jobId] == p.jobs[Sequence(p, a, k)[i]] == SequencedJobs(p, a, k)[i]
  {
    SequenceFacts(p, a, k);
  }

  lemma ReferencesHold(world: World, p: Problem, a: Assignment, k: nat, route: Route)
    requires k < |p.vans| && Filed(world, p) && OfCrew(p, a, k, route)
    ensures I.ReferencesOk(route, world)
  {
    forall i | 0 <= i < |route.workerIds| ensures route.workerIds[i] in world.workers {
      assert route.workerIds[i] in CrewIds(p, a, k, |p.workers|);
    }
    forall i | 0 <= i < |route.stops| ensures route.stops[i].jobId in world.jobs {
      StopJobFiled(world, p, a, k, route, i);
    }
  }

  lemma {:induction false} HolderIsAboard(p: Problem, a: Assignment, k: nat, c: Certification, n: nat) returns (i: nat)
    requires n <= |p.workers| && HoldersAboard(p, a, k, c, n) >= 1
    ensures i < n && a.assign(i, k) && c in p.workers[i].certifications
    decreases n
  {
    if a.assign(n - 1, k) && c in p.workers[n - 1].certifications {
      i := n - 1;
    } else {
      i := HolderIsAboard(p, a, k, c, n - 1);
    }
  }

  lemma FitnessHolds(world: World, p: Problem, a: Assignment, k: nat, route: Route)
    requires Feasible(p, a) && k < |p.vans| && Filed(world, p) && OfCrew(p, a, k, route)
    ensures I.CrewFit(route, world)
  {
    forall i | 0 <= i < |route.stops| ensures I.StopFit(route.stops[i], route, world) {
      StopJobFiled(world, p, a, k, route, i);
      var j := Sequence(p, a, k)[i];
      forall c | c in p.jobs[j].requiredCertifications ensures c in I.Held(world, route.workerIds) {
        var h := HolderIsAboard(p, a, k, c, |p.workers|);
        assert p.workers[h].id in route.workerIds;
      }
    }
  }

  /** A stretch the planner left free up to `free`, and clear from there on, is free. */
  lemma FreeThenClear(outages: seq<Unavailability>, day: Moment, free: Moment, start: Moment, end: Moment)
    requires start < end && forall m :: start - day <= m < free - day ==> !BlockedAt(outages, day, m)
    requires end > free ==> NoneCovers(outages, Max(start, free), end)
    ensures Free(outages, day, (start - day, end - day), start - day, end - day)
  {
    forall m | start - day <= m < end - day ensures !BlockedAt(outages, day, m) {
      if m >= free - day && BlockedAt(outages, day, m) {
        BlockedIsCovered(outages, day, Max(start, free) - day, end - day, m);
      }
    }
  }

  lemma NoneCoversLess(outages: seq<Unavailability>, start: Moment, end: Moment, from: Moment)
    requires NoneCovers(outages, start, end) && start <= from
    ensures NoneCovers(outages, from, end)
  {
  }

  lemma UsableMeansFree(world: World, p: Problem, i: nat, start: Moment)
    requires Sized(p) && i < |p.workers| && Usable(world, p.onDate, p.workers[i], p.span[i])
    requires DayStart(p.onDate) + p.span[i].0 <= start
    ensures var day := DayStart(p.onDate);
            forall m :: start - day <= m < p.span[i].1 ==>
              !BlockedAt(WorkerOutages(world, p.workers[i].id), day, m)
    ensures HoursFor(p.workers[i], Weekday(p.onDate)).Some?
    ensures var hours := HoursFor(p.workers[i], Weekday(p.onDate)).value;
            hours.start <= p.span[i].0 < p.span[i].1 <= hours.end
  {
    var hours := HoursFor(p.workers[i], Weekday(p.onDate)).value;
    assert Free(WorkerOutages(world, p.workers[i].id), DayStart(p.onDate), (hours.start, hours.end),
                p.span[i].0, p.span[i].1);
  }

  /** Exactly when a member out from `start` to `end` is available throughout and within hours: the planner misses no
      outage there, and past the usable stretch there is none and the hour is not too late. */
  lemma MemberAcceptedIff(world: World, p: Problem, config: I.Config, i: nat, start: Moment, end: Moment)
    requires Sized(p) && i < |p.workers| && Usable(world, p.onDate, p.workers[i], p.span[i])
    requires DayStart(p.onDate) + p.span[i].0 <= start < end <= DayStart(p.onDate) + MINUTES_PER_DAY
    ensures VisitAccepted(world, p.workers[i], start, end, config) <==> MemberClear(world, p, config, i, start, end)
  {
    var outages, free := WorkerOutages(world, p.workers[i].id), DayStart(p.onDate) + p.span[i].1;
    UsableMeansFree(world, p, i, start);
    MemberWithinHoursIff(world, p, config, i, start, end);
    if NoneCovers(outages, start, end) {
      NoneCoversLess(outages, start, end, Max(start, free));
    }
    if end > free ==> NoneCovers(outages, Max(start, free), end) {
      FreeThenClear(outages, DayStart(p.onDate), free, start, end);
    }
  }

  /** Exactly when the clock finds the member within hours. */
  lemma MemberWithinHoursIff(world: World, p: Problem, config: I.Config, i: nat, start: Moment, end: Moment)
    requires Sized(p) && i < |p.workers| && Usable(world, p.onDate, p.workers[i], p.span[i])
    requires DayStart(p.onDate) + p.span[i].0 <= start < end <= DayStart(p.onDate) + MINUTES_PER_DAY
    ensures I.WithinHours(p.workers[i], (start, end), config) <==> MayBeOutTill(p, config, i, end)
  {
    UsableMeansFree(world, p, i, start);
    ClockWithinDay(p.onDate, start);
    if end < DayStart(p.onDate) + MINUTES_PER_DAY {
      ClockWithinDay(p.onDate, end);
    } else {
      ClockWithinDay(p.onDate + 1, end);
    }
  }

  /** The van is available exactly when the planner misses no outage of it. */
  lemma VanAvailableIff(world: World, p: Problem, k: nat, start: Moment, end: Moment)
    requires Sized(p) && k < |p.vans| && UsableVan(world, p.onDate, p.vans[k], p.vanWindow[k])
    requires DayStart(p.onDate) + p.vanWindow[k].0 <= start < end <= DayStart(p.onDate) + p.vanWindow[k].1
    ensures NoneCovers(VanOutages(world, p.vans[k].id), start, end) <==>
            SeenAlike(VanOutages(world, p.vans[k].id), DayStart(p.onDate), start, end)
  {
    var outages, day, window := VanOutages(world, p.vans[k].id), DayStart(p.onDate), p.vanWindow[k];
    assert Free(outages, day, (0, MINUTES_PER_DAY), window.0, window.1);
    FreeThenClear(outages, day, day + window.1, start, end);
  }

  /** Someone aboard is a member whose usable stretch has begun when the crew sets out. */
  lemma MemberOf(p: Problem, a: Assignment, k: nat, id: WorkerId, start: Moment) returns (i: nat)
    requires Feasible(p, a) && k < |p.vans| && id in CrewIds(p, a, k, |p.workers|)
    requires DayStart(p.onDate) + a.crewStart(k) <= start
    ensures i < |p.workers| && a.assign(i, k) && p.workers[i].id == id
    ensures DayStart(p.onDate) + p.span[i].0 <= start
  {
    i :| 0 <= i < |p.workers| && a.assign(i, k) && p.workers[i].id == id;
  }

  /** One member of the crew, and one name on the route. */
  ghost predicate AboardAccepted(world: World, id: WorkerId, start: Moment, end: Moment, config: I.Config) {
    id in world.workers ==>
      IsWorkerAvailable(world, id, start, end) && I.WithinHours(world.workers[id], (start, end), config)
  }

  lemma AboardIff(
    world: World, p: Problem, a: Assignment, config: I.Config, k: nat, start: Moment, end: Moment)
    requires Feasible(p, a) && k < |p.vans| && Filed(world, p) && WorkersPosed(world, p.onDate, p)
    requires DayStart(p.onDate) + a.crewStart(k) <= start < end <= DayStart(p.onDate) + MINUTES_PER_DAY
    ensures (forall id :: id in CrewIds(p, a, k, |p.workers|) ==> AboardAccepted(world, id, start, end, config)) <==>
            (forall i :: 0 <= i < |p.workers| && a.assign(i, k) ==> MemberClear(world, p, config, i, start, end))
  {
    forall i | 0 <= i < |p.workers| && a.assign(i, k)
      ensures AboardAccepted(world, p.workers[i].id, start, end, config) <==>
              MemberClear(world, p, config, i, start, end)
      ensures p.workers[i].id in CrewIds(p, a, k, |p.workers|)
    {
      MemberAcceptedIff(world, p, config, i, start, end);
    }
    if forall i :: 0 <= i < |p.workers| && a.assign(i, k) ==> MemberClear(world, p, config, i, start, end) {
      forall id | id in CrewIds(p, a, k, |p.workers|) ensures AboardAccepted(world, id, start, end, config) {
        var i := MemberOf(p, a, k, id, start);
      }
    }
  }

  /** The checks of outages and hours, name by name. */
  lemma OutingByName(world: World, route: Route, config: I.Config)
    requires I.RouteSpan(route).Some? && I.ReferencesOk(route, world)
    ensures var (start, end) := I.RouteSpan(route).value;
            I.ResourcesAvailable(route, world) && I.HoursOk(route, world, config) <==>
            && NoneCovers(VanOutages(world, route.vanId), start, end)
            && forall id :: id in route.workerIds ==> AboardAccepted(world, id, start, end, config)
  {
    var (start, end) := I.RouteSpan(route).value;
    if forall id :: id in route.workerIds ==> AboardAccepted(world, id, start, end, config) {
      forall x | 0 <= x < |route.workerIds|
        ensures IsWorkerAvailable(world, route.workerIds[x], start, end)
        ensures I.WithinHours(world.workers[route.workerIds[x]], (start, end), config)
      {
        assert AboardAccepted(world, route.workerIds[x], start, end, config);
      }
    }
  }

  /** Of a crew's route that runs on time, exactly when nobody aboard nor the van is caught by an outage or an hour. */
  lemma OutingClearIff(
    world: World, p: Problem, a: Assignment, config: I.Config, k: nat, route: Route)
    requires Feasible(p, a) && k < |p.vans| && Filed(world, p) && RunsOnTime(p, a, k, route)
    requires WorkersPosed(world, p.onDate, p) && VansPosed(world, p.onDate, p)
    ensures I.ResourcesAvailable(route, world) && I.HoursOk(route, world, config) <==>
            OutingClear(world, p, a, config, k, route)
  {
    var (start, end) := I.RouteSpan(route).value;
    ReferencesHold(world, p, a, k, route);
    OutingByName(world, route, config);
    AboardIff(world, p, a, config, k, start, end);
    VanAvailableIff(world, p, k, start, end);
  }

  /** With real outages, a crew home within everyone's usable stretch is always clear. */
  lemma HomeInStretchIsClear(
    world: World, p: Problem, a: Assignment, config: I.Config, k: nat, route: Route)
    requires Sized(p) && k < |p.vans| && OutagesAreReal(world)
    requires I.RouteSpan(route).Some? ==>
               && I.RouteSpan(route).value.1 <= DayStart(p.onDate) + MINUTES_PER_DAY
               && I.RouteSpan(route).value.1 <= DayStart(p.onDate) + a.crewEnd(k)
    requires HomeInStretch(p, a, k)
    ensures OutingClear(world, p, a, config, k, route)
  {
    if I.RouteSpan(route).Some? {
      var (start, end) := I.RouteSpan(route).value;
      RealIsSeenAlike(VanOutages(world, p.vans[k].id), DayStart(p.onDate), start, end);
      forall i | 0 <= i < |p.workers| && a.assign(i, k) ensures MemberClear(world, p, config, i, start, end) {
        RealIsSeenAlike(WorkerOutages(world, p.workers[i].id), DayStart(p.onDate), start, end);
      }
    }
  }

  /** The crew is home before anyone's usable stretch ends. */
  ghost predicate HomeInStretch(p: Problem, a: Assignment, k: nat)
    requires Sized(p)
  {
    forall i :: 0 <= i < |p.workers| && a.assign(i, k) ==> a.crewEnd(k) <= p.span[i].1
  }

  lemma RealIsSeenAlike(outages: seq<Unavailability>, day: Moment, start: Moment, end: Moment)
    requires forall o :: o in outages ==> WellFormed(o)
    requires end <= day + MINUTES_PER_DAY
    ensures SeenAlike(outages, day, start, end)
  {
    FreeIsAvailable(outages, day, (start - day, end - day));
  }

  lemma LegsAgree(world: World, travel: Travel, p: Problem, a: Assignment, k: nat, slack: nat)
    requires k < |p.vans| && Filed(world, p)
    ensures I.LegsOk(CrewRoute(p, a, travel, k), world, travel, slack) <==> FirstLegSuits(p, a, travel, k, slack)
  {
    SequencedJobsFiled(world, p, a, k);
    WalkAccepted(world, travel, CrewRoute(p, a, travel, k), p.vans[k], DayStart(p.onDate) + a.crewStart(k),
                 SequencedJobs(p, a, k), slack);
  }

  lemma SequencedJobsPlain(p: Problem, a: Assignment, travel: Travel, k: nat, released: set<JobId>)
    requires k < |p.vans| && RequestsSuit(p, a, travel, k, released) && PromisesHold(p, a, k, released)
    requires Punctual(p, a, travel, k, released)
    ensures PromisesSafe(travel, p.vans[k].homeDepot, DayStart(p.onDate) + a.crewStart(k), SequencedJobs(p, a, k),
                         released)
  {
    SequenceFacts(p, a, k);
    var depot, clock, jobs := p.vans[k].homeDepot, DayStart(p.onDate) + a.crewStart(k), SequencedJobs(p, a, k);
    forall i: nat | i < |jobs| ensures PromiseSafe(travel, depot, clock, jobs, i, released) {
      assert AskedAt(travel, depot, clock, jobs, i, released);
      assert PunctualWhereBound(travel, depot, clock, jobs, i, released);
    }
  }

  lemma WalkAccepted(world: World, travel: Travel, route: Route, van: Van, clock: Moment, jobs: seq<Job>, slack: nat)
    requires route.stops == Walk(travel, van.homeDepot, clock, jobs)
    requires route.vanId in world.vans && world.vans[route.vanId] == van
    requires JobsFiled(world, jobs)
    ensures I.LegsOk(route, world, travel, slack) <==>
            (jobs != [] ==> FirstLegWillPass(travel, van.homeDepot, jobs[0], clock, slack))
  {
    WalkNames(travel, van.homeDepot, clock, jobs);
    LegsAccepted(world, travel, route, van, clock, jobs, slack);
  }

  lemma StopsKeepToStarts(p: Problem, a: Assignment, k: nat, route: Route, released: set<JobId>)
    requires Feasible(p, a) && ReleasedSuit(p, a, k, released) && k < |p.vans| && a.active(k)
    requires RunsOnTime(p, a, k, route)
    ensures KeepsToStarts(route.stops, SequencedJobs(p, a, k), Starts(p, a, k), released)
  {
    var jobs, starts := SequencedJobs(p, a, k), Starts(p, a, k);
    forall i | 0 <= i < |jobs|
      ensures route.stops[i].arrival <= starts[i] && WindowHolds(jobs[i], starts[i], released)
    {
      assert VisitsBy(route.stops[i], jobs[i], starts[i]);
      SequenceSuits(p, a, k, i, released);
    }
  }

  lemma CrewRouteWalks(p: Problem, a: Assignment, travel: Travel, k: nat)
    requires k < |p.vans|
    ensures CrewRoute(p, a, travel, k).stops ==
            Walk(travel, p.vans[k].homeDepot, DayStart(p.onDate) + a.crewStart(k), SequencedJobs(p, a, k))
  {
  }

  /** What a crew's walk brings to the window check. */
  ghost predicate FitForWindows(
    world: World, travel: Travel, depot: Location, clock: Moment, jobs: seq<Job>, starts: seq<Moment>, stops: seq<Stop>,
    released: set<JobId>)
  {
    && KeepsToStarts(stops, jobs, starts, released)
    && JobsFiled(world, jobs) && PromisesSafe(travel, depot, clock, jobs, released)
  }

  lemma WindowsHold(world: World, travel: Travel, p: Problem, a: Assignment, k: nat, released: set<JobId>)
    requires k < |p.vans| && Filed(world, p) && Punctual(p, a, travel, k, released)
    requires RequestsSuit(p, a, travel, k, released) && PromisesHold(p, a, k, released)
    requires KeepsToStarts(CrewRoute(p, a, travel, k).stops, SequencedJobs(p, a, k), Starts(p, a, k), released)
    ensures I.WindowsOk(CrewRoute(p, a, travel, k), world, released)
  {
    SequencedJobsFiled(world, p, a, k);
    SequencedJobsPlain(p, a, travel, k, released);
    WalkedWindowsHold(world, travel, p, a, k, released, SequencedJobs(p, a, k), DayStart(p.onDate) + a.crewStart(k),
                      Starts(p, a, k));
  }

  lemma WalkedWindowsHold(
    world: World, travel: Travel, p: Problem, a: Assignment, k: nat, released: set<JobId>, jobs: seq<Job>,
    clock: Moment, starts: seq<Moment>)
    requires k < |p.vans| && jobs == SequencedJobs(p, a, k) && clock == DayStart(p.onDate) + a.crewStart(k)
    ensures FitForWindows(world, travel, p.vans[k].homeDepot, clock, jobs, starts, CrewRoute(p, a, travel, k).stops,
                          released) ==>
              I.WindowsOk(CrewRoute(p, a, travel, k), world, released)
  {
    if FitForWindows(world, travel, p.vans[k].homeDepot, clock, jobs, starts, CrewRoute(p, a, travel, k).stops,
                     released)
    {
      CrewRouteWalks(p, a, travel, k);
      WindowsAccepted(world, travel, CrewRoute(p, a, travel, k), p.vans[k].homeDepot, clock, jobs, starts, released);
    }
  }

  /** The checker accepts every visit the planner's hours allow this member, within the day. */
  ghost predicate EnvelopeAccepted(world: World, p: Problem, config: I.Config, i: nat)
    requires Sized(p) && i < |p.workers|
  {
    forall start, end ::
      DayStart(p.onDate) + p.span[i].0 <= start < end <= DayStart(p.onDate) + ReachOf(p, i) ==>
        VisitAccepted(world, p.workers[i], start, end, config)
  }

  ghost predicate VisitAccepted(world: World, w: Worker, start: Moment, end: Moment, config: I.Config) {
    NoneCovers(WorkerOutages(world, w.id), start, end) && I.WithinHours(w, (start, end), config)
  }

  /** The worst case: exactly when the checker honours all the hours the planner may keep a member for. A reach past
      midnight is cut there, as the crew's own end is, and the clock then reads midnight as early. */
  lemma EnvelopeAcceptedIff(world: World, p: Problem, config: I.Config, i: nat)
    requires Sized(p) && i < |p.workers| && Usable(world, p.onDate, p.workers[i], p.span[i])
    requires ViewsAgree(WorkerOutages(world, p.workers[i].id), DayStart(p.onDate), (0, MINUTES_PER_DAY))
    ensures EnvelopeAccepted(world, p, config, i) <==> ReachIsClear(world, p, config, i)
  {
    if ReachIsClear(world, p, config, i) {
      forall start, end | DayStart(p.onDate) + p.span[i].0 <= start < end <= DayStart(p.onDate) + ReachOf(p, i)
        ensures VisitAccepted(world, p.workers[i], start, end, config)
      {
        ReachableIsClear(world, p, config, i, start, end);
        MemberAcceptedIff(world, p, config, i, start, end);
      }
    }
    if EnvelopeAccepted(world, p, config, i) && Allowance(p, i) != 0 {
      AcceptedReachIsClear(world, p, config, i);
    }
  }

  lemma ReachableIsClear(world: World, p: Problem, config: I.Config, i: nat, start: Moment, end: Moment)
    requires Sized(p) && i < |p.workers| && Usable(world, p.onDate, p.workers[i], p.span[i])
    requires ViewsAgree(WorkerOutages(world, p.workers[i].id), DayStart(p.onDate), (0, MINUTES_PER_DAY))
    requires ReachIsClear(world, p, config, i)
    requires DayStart(p.onDate) + p.span[i].0 <= start < end <= DayStart(p.onDate) + ReachOf(p, i)
    ensures MemberClear(world, p, config, i, start, end)
  {
    var outages, day := WorkerOutages(world, p.workers[i].id), DayStart(p.onDate);
    var free := day + p.span[i].1;
    UsableMeansFree(world, p, i, start);
    if Free(outages, day, (start - day, end - day), start - day, end - day) {
      assert Free(outages, day, (0, MINUTES_PER_DAY), start - day, end - day);
    }
    if end > free {
      NoneCoversLess(outages, free, day + ReachOf(p, i), Max(start, free));
    }
  }

  lemma AcceptedReachIsClear(world: World, p: Problem, config: I.Config, i: nat)
    requires Sized(p) && i < |p.workers| && Usable(world, p.onDate, p.workers[i], p.span[i])
    requires EnvelopeAccepted(world, p, config, i) && Allowance(p, i) != 0
    ensures ReachIsClear(world, p, config, i)
  {
    var day, span := DayStart(p.onDate), p.span[i];
    var outages := WorkerOutages(world, p.workers[i].id);
    var hours := HoursFor(p.workers[i], Weekday(p.onDate)).value;
    assert Free(outages, day, (hours.start, hours.end), span.0, span.1);
    assert span.1 < ReachOf(p, i);
    assert VisitAccepted(world, p.workers[i], day + span.0, day + ReachOf(p, i), config);
    assert VisitAccepted(world, p.workers[i], day + span.0, day + span.1 + 1, config);
    if span.1 < hours.end {
      TrimmedByOutage(outages, day, (hours.start, hours.end), span, day + ReachOf(p, i));
    }
    ClockWithinDay(p.onDate, day + span.0);
    if span.1 + 1 < MINUTES_PER_DAY {
      ClockWithinDay(p.onDate, day + span.1 + 1);
    }
  }

  /** A stretch that stops short of the shift's end stops at an outage. */
  lemma TrimmedByOutage(outages: seq<Unavailability>, day: Moment, shift: Interval, span: Interval, end: Moment)
    requires IsLargestFree(outages, day, shift, Some(span)) && span.1 < shift.1 && end > day + span.1
    ensures !NoneCovers(outages, day + span.0, end)
  {
    assert Free(outages, day, shift, span.0, span.1);
    assert !Free(outages, day, shift, span.0, span.1 + 1);
    var m :| span.0 <= m < span.1 + 1 && BlockedAt(outages, day, m);
    var h :| 0 <= h < |outages| && Blocks(outages[h], day, m);
    assert Covers(outages[h], day + span.0, end);
  }

  // ------------------------------------------------------------------ van load

  function SumOver(s: seq<nat>, f: nat -> nat): nat {
    if s == [] then 0 else SumOver(s[..|s| - 1], f) + f(s[|s| - 1])
  }

  lemma {:induction false} SumOverSplit(s: seq<nat>, i: nat, f: nat -> nat)
    requires i < |s|
    ensures SumOver(s, f) == SumOver(s[..i] + s[i + 1..], f) + f(s[i])
  {
    var n := |s| - 1;
    if i == n {
      assert s[..i] + s[i + 1..] == s[..n];
    } else {
      SumOverSplit(s[..n], i, f);
      var t := s[..i] + s[i + 1..];
      assert t[..|t| - 1] == s[..n][..i] + s[..n][i + 1..];
    }
  }

  lemma WithoutOne(s: seq<nat>, i: nat)
    requires i < |s|
    ensures multiset(s[..i] + s[i + 1..]) == multiset(s) - multiset{s[i]}
  {
    assert s == s[..i] + [s[i]] + s[i + 1..];
  }

  /** A load does not depend on the order in which it is added up. */
  lemma {:induction false} SumOverPermutes(s: seq<nat>, t: seq<nat>, f: nat -> nat)
    requires multiset(s) == multiset(t)
    ensures SumOver(s, f) == SumOver(t, f)
  {
    if s == [] {
      assert |multiset(t)| == 0;
    } else {
      var n := |s| - 1;
      assert s[n] in multiset(s) && s[n] in multiset(t);
      var i :| 0 <= i < |t| && t[i] == s[n];
      WithoutOne(s, n);
      WithoutOne(t, i);
      assert s[..n] + s[n + 1..] == s[..n];
      SumOverPermutes(s[..n], t[..i] + t[i + 1..], f);
      SumOverSplit(t, i, f);
    }
  }

  function PanesAt(p: Problem): nat -> nat {
    (j: nat) => if j < |p.jobs| then Panes(p.jobs[j]) else 0
  }

  function PartAt(p: Problem, part: PartCode): nat -> nat {
    (j: nat) => if j < |p.jobs| then PartNeed(p.jobs[j].materials, part) else 0
  }

  lemma SumOverSnoc(s: seq<nat>, x: nat, f: nat -> nat)
    ensures SumOver(s + [x], f) == SumOver(s, f) + f(x)
  {
    assert (s + [x])[..|s|] == s;
  }

  lemma SumOverVisit(a: Assignment, k: nat, n: nat, f: nat -> nat)
    requires n > 0
    ensures SumOver(Visited(a, k, n), f) == SumOver(Visited(a, k, n - 1), f) + if a.visit(n - 1, k) then f(n - 1) else 0
  {
    SumOverSnoc(Visited(a, k, n - 1), n - 1, f);
  }

  lemma {:induction false} PaneLoadIsSum(p: Problem, a: Assignment, k: nat, n: nat, panes: nat -> nat)
    requires n <= |p.jobs| && forall j: nat {:trigger panes(j)} :: j < |p.jobs| ==> panes(j) == Panes(p.jobs[j])
    ensures PaneLoad(p, a, k, n) == SumOver(Visited(a, k, n), panes)
  {
    if n == 0 {
      assert Visited(a, k, 0) == [];
    } else {
      PaneLoadIsSum(p, a, k, n - 1, panes);
      SumOverVisit(a, k, n, panes);
    }
  }

  lemma {:induction false} PartLoadIsSum(p: Problem, a: Assignment, k: nat, part: PartCode, n: nat, needs: nat -> nat)
    requires n <= |p.jobs|
    requires forall j: nat {:trigger needs(j)} :: j < |p.jobs| ==> needs(j) == PartNeed(p.jobs[j].materials, part)
    ensures PartLoad(p, a, k, part, n) == SumOver(Visited(a, k, n), needs)
  {
    if n == 0 {
      assert Visited(a, k, 0) == [];
    } else {
      PartLoadIsSum(p, a, k, part, n - 1, needs);
      SumOverVisit(a, k, n, needs);
    }
  }

  lemma {:induction false} NeedIsDemand(materials: seq<Material>, part: PartCode)
    ensures PartNeed(materials, part) == I.DemandOf(materials, part)
  {
    if materials != [] {
      NeedIsDemand(materials[1..], part);
      DemandOfCons(materials, part);
    }
  }

  lemma {:induction false} DemandOfCons(materials: seq<Material>, part: PartCode)
    requires materials != []
    ensures I.DemandOf(materials, part)
         == I.DemandOf(materials[..1], part) + I.DemandOf(materials[1..], part)
  {
    var n := |materials| - 1;
    if n > 0 {
      DemandOfCons(materials[..n], part);
      assert materials[..n][..1] == materials[..1];
      assert materials[..n][1..] == materials[1..][..n - 1];
    } else {
      assert materials[..1] == materials;
    }
  }

  /** The checker's tallies over the first stops of a route are the same sums. */
  lemma {:induction false} StopsCarrySums(
    world: World, p: Problem, stops: seq<Stop>, s: seq<nat>, part: PartCode)
    requires |stops| == |s| && Filed(world, p)
    requires forall i :: 0 <= i < |s| ==> s[i] < |p.jobs| && stops[i].jobId == p.jobs[s[i]].id
    ensures I.PanesOn(stops, world) == SumOver(s, PanesAt(p))
    ensures I.DemandOn(stops, world, part) == SumOver(s, PartAt(p, part))
  {
    if s != [] {
      var n := |s| - 1;
      StopsCarrySums(world, p, stops[..n], s[..n], part);
      NeedIsDemand(p.jobs[s[n]].materials, part);
    }
  }

  lemma {:induction false} PartLoadPositive(p: Problem, a: Assignment, k: nat, part: PartCode, n: nat)
    returns (j: nat, m: Material)
    requires n <= |p.jobs| && PartLoad(p, a, k, part, n) > 0
    ensures j < n && m in p.jobs[j].materials && m.inStock && m.partCode == part
    decreases n
  {
    if PartLoad(p, a, k, part, n - 1) > 0 {
      j, m := PartLoadPositive(p, a, k, part, n - 1);
    } else {
      j := n - 1;
      m := NeedPositive(p.jobs[j].materials, part);
    }
  }

  lemma {:induction false} NeedPositive(materials: seq<Material>, part: PartCode) returns (m: Material)
    requires PartNeed(materials, part) > 0
    ensures m in materials && m.inStock && m.partCode == part
  {
    if materials[0].inStock && materials[0].partCode == part {
      m := materials[0];
    } else {
      m := NeedPositive(materials[1..], part);
    }
  }

  lemma CapacityHolds(world: World, p: Problem, a: Assignment, k: nat, route: Route)
    requires Feasible(p, a) && k < |p.vans| && Filed(world, p) && OfCrew(p, a, k, route)
    ensures I.CapacityOk(route, world)
  {
    var s := Sequence(p, a, k);
    SequenceFacts(p, a, k);
    forall part
      ensures I.PanesOn(route.stops, world) == PaneLoad(p, a, k, |p.jobs|)
      ensures I.DemandOn(route.stops, world, part) == PartLoad(p, a, k, part, |p.jobs|)
    {
      StopsCarrySums(world, p, route.stops, s, part);
      PaneLoadIsSum(p, a, k, |p.jobs|, PanesAt(p));
      PartLoadIsSum(p, a, k, part, |p.jobs|, PartAt(p, part));
      SumOverPermutes(s, Visited(a, k, |p.jobs|), PanesAt(p));
      SumOverPermutes(s, Visited(a, k, |p.jobs|), PartAt(p, part));
    }
    assert I.PanesOn(route.stops, world) == PaneLoad(p, a, k, |p.jobs|) by {
      assert I.DemandOn(route.stops, world, "") == PartLoad(p, a, k, "", |p.jobs|);
    }
    forall part | I.DemandOn(route.stops, world, part) > 0
      ensures I.DemandOn(route.stops, world, part) <= GetOr(world.vans[route.vanId].stock, part, 0)
    {
      var j, m := PartLoadPositive(p, a, k, part, |p.jobs|);
    }
  }

  lemma MaterialsHold(world: World, p: Problem, a: Assignment, k: nat, route: Route)
    requires k < |p.vans| && Filed(world, p) && OfCrew(p, a, k, route)
    requires forall j :: 0 <= j < |p.jobs| ==> IsCandidate(world, p.onDate, p.jobs[j].id)
    ensures I.MaterialsOk(route, world)
  {
    forall i | 0 <= i < |route.stops| ensures I.MaterialsReady(route.stops[i], route.date, world) {
      StopJobFiled(world, p, a, k, route, i);
    }
  }

  // ------------------------------------------------------------ across routes

  lemma OneCrewPerJob(a: Assignment, j: nat, k: nat, l: nat, n: nat)
    requires CrewsVisiting(a, j, n) <= 1 && k < l < n && a.visit(j, k)
    ensures !a.visit(j, l)
  {
    VisitsCount(a, j, k, l + 1);
    VisitsGrow(a, j, l + 1, n);
  }

  lemma {:induction false} VisitsCount(a: Assignment, j: nat, k: nat, n: nat)
    requires k < n && a.visit(j, k)
    ensures CrewsVisiting(a, j, n) >= 1 + if k < n - 1 && a.visit(j, n - 1) then 1 else 0
    decreases n
  {
    if k < n - 1 {
      VisitsCount(a, j, k, n - 1);
    }
  }

  lemma {:induction false} VisitsGrow(a: Assignment, j: nat, m: nat, n: nat)
    requires m <= n
    ensures CrewsVisiting(a, j, m) <= CrewsVisiting(a, j, n)
    decreases n
  {
    if m < n {
      VisitsGrow(a, j, m, n - 1);
    }
  }

  lemma RoutesShareNoJob(world: World, p: Problem, a: Assignment, k: nat, l: nat, r: Route, q: Route, id: JobId)
    requires Sized(p) && ServiceRules(p, a) && k < l < |p.vans| && Filed(world, p)
    requires Carries(p, a, k, r) && Carries(p, a, l, q)
    requires forall i, j :: 0 <= i < j < |p.jobs| ==> p.jobs[i].id != p.jobs[j].id
    requires id in StopJobs(r.stops)
    ensures id !in StopJobs(q.stops)
  {
    if id in StopJobs(q.stops) {
      var x :| 0 <= x < |r.stops| && r.stops[x].jobId == id;
      var y :| 0 <= y < |q.stops| && q.stops[y].jobId == id;
      StopJobFiled(world, p, a, k, r, x);
      StopJobFiled(world, p, a, l, q, y);
      var j := Sequence(p, a, k)[x];
      assert j == Sequence(p, a, l)[y];
      OneCrewPerJob(a, j, k, l, |p.vans|);
    }
  }

  lemma RouteJobsDistinct(world: World, p: Problem, a: Assignment, k: nat, r: Route)
    requires k < |p.vans| && Filed(world, p) && Carries(p, a, k, r)
    requires forall i, j :: 0 <= i < j < |p.jobs| ==> p.jobs[i].id != p.jobs[j].id
    ensures Distinct(StopJobs(r.stops))
  {
    SequenceFacts(p, a, k);
    var s, jobs := Sequence(p, a, k), SequencedJobs(p, a, k);
    forall i, j | 0 <= i < j < |r.stops| ensures r.stops[i].jobId != r.stops[j].jobId {
      assert s[i] != s[j] && jobs[i].id == p.jobs[s[i]].id && jobs[j].id == p.jobs[s[j]].id;
    }
  }

  /** A list of routes repeats no job when no route does and no two share one. */
  lemma {:induction false} RoutedJobsDistinct(routes: seq<Route>)
    requires forall i :: 0 <= i < |routes| ==> Distinct(StopJobs(routes[i].stops))
    requires forall i, j, id :: 0 <= i < j < |routes| && id in StopJobs(routes[i].stops) ==>
               id !in StopJobs(routes[j].stops)
    ensures Distinct(RoutedJobs(routes))
  {
    if routes != [] {
      var n := |routes| - 1;
      RoutedJobsDistinct(routes[..n]);
      var before, last := RoutedJobs(routes[..n]), StopJobs(routes[n].stops);
      forall x, y | 0 <= x < |before| && 0 <= y < |last| ensures before[x] != last[y] {
        RoutedJobsMembers(routes[..n], before[x]);
        var i :| 0 <= i < n && before[x] in StopJobs(routes[..n][i].stops);
      }
    }
  }

  lemma {:induction false} CrewIdsDistinct(p: Problem, a: Assignment, k: nat, n: nat)
    requires n <= |p.workers| && Distinct(IdsOf(p.workers))
    ensures Distinct(CrewIds(p, a, k, n))
  {
    if n > 0 {
      CrewIdsDistinct(p, a, k, n - 1);
      var rest := CrewIds(p, a, k, n - 1);
      forall x | 0 <= x < |rest| ensures rest[x] != p.workers[n - 1].id {
        assert rest[x] in rest;
        var i :| 0 <= i < n - 1 && a.assign(i, k) && p.workers[i].id == rest[x];
        assert IdsOf(p.workers)[i] != IdsOf(p.workers)[n - 1];
      }
    }
  }

  lemma SameWorker(p: Problem, i: nat, j: nat)
    requires Distinct(IdsOf(p.workers)) && i < |p.workers| && j < |p.workers| && p.workers[i].id == p.workers[j].id
    ensures i == j
  {
    var ids := IdsOf(p.workers);
    assert ids[i] == ids[j];
  }

  lemma CrewsShareNobody(p: Problem, a: Assignment, k: nat, l: nat, id: WorkerId)
    requires AssignmentRules(p, a) && k < |p.vans| && l < |p.vans| && k != l && Distinct(IdsOf(p.workers))
    requires id in CrewIds(p, a, k, |p.workers|)
    ensures id !in CrewIds(p, a, l, |p.workers|)
  {
    if id in CrewIds(p, a, l, |p.workers|) {
      var i :| 0 <= i < |p.workers| && a.assign(i, k) && p.workers[i].id == id;
      var j :| 0 <= j < |p.workers| && a.assign(j, l) && p.workers[j].id == id;
      SameWorker(p, i, j);
    }
  }

  lemma NoSharing(p: Problem, a: Assignment, k: nat, l: nat, r: Route, q: Route)
    requires AssignmentRules(p, a) && k < l < |p.vans|
    requires Distinct(IdsOf(p.workers)) && Distinct(VanIdsOf(p.vans))
    requires OfCrew(p, a, k, r) && OfCrew(p, a, l, q)
    ensures !I.Clash(I.OfWorkers, r, q) && !I.Clash(I.OfVans, r, q)
  {
    assert VanIdsOf(p.vans)[k] != VanIdsOf(p.vans)[l];
    forall x, y | 0 <= x < |r.workerIds| && 0 <= y < |q.workerIds| ensures r.workerIds[x] != q.workerIds[y] {
      assert r.workerIds[x] in CrewIds(p, a, k, |p.workers|);
      CrewsShareNobody(p, a, k, l, r.workerIds[x]);
    }
  }

  // ------------------------------------------------------------- the theorem

  /** The checks that read the clock, on crew `k`'s route: outages, windows, hours, and the first leg's road. */
  ghost predicate ClockPasses(world: World, travel: Travel, p: Problem, a: Assignment, config: I.Config, k: nat)
    requires k < |p.vans|
  {
    var route := CrewRoute(p, a, travel, k);
    && I.ResourcesAvailable(route, world)
    && I.WindowsOk(route, world, config.released)
    && I.HoursOk(route, world, config)
    && FirstLegSuits(p, a, travel, k, config.slack)
  }

  /** Of one crew's route only the clock's checks can fail, whatever the roads. */
  lemma OnlyTheClockDecides(
    world: World, travel: Travel, onDate: Day, ids: seq<JobId>, pinned: map<JobId, seq<WorkerId>>,
    params: Params, probes: seq<Moment>, p: Problem, a: Assignment, config: I.Config, k: nat)
    requires Poses(world, travel, onDate, ids, pinned, params, probes, p) && WellKeyed(world)
    requires Feasible(p, a) && k < |p.vans|
    ensures I.RouteOk(CrewRoute(p, a, travel, k), world, travel, config) <==>
            ClockPasses(world, travel, p, a, config, k)
  {
    var route := CrewRoute(p, a, travel, k);
    CrewRouteIsOfCrew(p, a, travel, k);
    JobsAreFiled(world, travel, onDate, ids, pinned, params, probes, p);
    ReferencesHold(world, p, a, k, route);
    FitnessHolds(world, p, a, k, route);
    CapacityHolds(world, p, a, k, route);
    MaterialsHold(world, p, a, k, route);
    LegsAgree(world, travel, p, a, k, config.slack);
  }

  /** Two routes of the day share no worker, no van and no job. */
  lemma RoutesStayApart(
    world: World, travel: Travel, onDate: Day, ids: seq<JobId>, pinned: map<JobId, seq<WorkerId>>,
    params: Params, probes: seq<Moment>, p: Problem, a: Assignment, k: nat, l: nat, r: Route, q: Route)
    requires Poses(world, travel, onDate, ids, pinned, params, probes, p) && Distinct(ids) && WellKeyed(world)
    requires Feasible(p, a) && k < l < |p.vans|
    requires OfCrew(p, a, k, r) && OfCrew(p, a, l, q)
    ensures !I.Clash(I.OfWorkers, r, q) && !I.Clash(I.OfVans, r, q)
    ensures forall id :: id in StopJobs(r.stops) ==> id !in StopJobs(q.stops)
  {
    NoSharing(p, a, k, l, r, q);
    JobsAreFiled(world, travel, onDate, ids, pinned, params, probes, p);
    forall id | id in StopJobs(r.stops) ensures id !in StopJobs(q.stops) {
      RoutesShareNoJob(world, p, a, k, l, r, q, id);
    }
  }

  /** A route names no job and nobody twice. */
  predicate NoRepeats(route: Route) { Distinct(StopJobs(route.stops)) && Distinct(route.workerIds) }

  predicate Apart(r: Route, q: Route) {
    && !I.Clash(I.OfWorkers, r, q) && !I.Clash(I.OfVans, r, q)
    && forall id :: id in StopJobs(r.stops) ==> id !in StopJobs(q.stops)
  }

  lemma RoutesApartMakeAPlan(routes: seq<Route>)
    requires forall i :: 0 <= i < |routes| ==> NoRepeats(routes[i])
    requires forall i, j :: 0 <= i < j < |routes| ==> Apart(routes[i], routes[j])
    ensures Distinct(RoutedJobs(routes)) && I.Exclusive(I.OfWorkers, routes) && I.Exclusive(I.OfVans, routes)
  {
    forall i | 0 <= i < |routes|
      ensures !I.SelfClash(I.OfWorkers, routes[i]) && !I.SelfClash(I.OfVans, routes[i])
      ensures Distinct(StopJobs(routes[i].stops))
    {
      assert NoRepeats(routes[i]);
    }
    forall i, j, id | 0 <= i < j < |routes| && id in StopJobs(routes[i].stops)
      ensures id !in StopJobs(routes[j].stops)
    {
      assert Apart(routes[i], routes[j]);
    }
    forall i, j | 0 <= i < j < |routes|
      ensures !I.Clash(I.OfWorkers, routes[i], routes[j]) && !I.Clash(I.OfVans, routes[i], routes[j])
    {
      assert Apart(routes[i], routes[j]);
    }
    RoutedJobsDistinct(routes);
  }

  /** The routes of any feasible answer repeat no job and double-book nobody, whatever the roads. */
  lemma DayIsExclusive(
    world: World, travel: Travel, onDate: Day, ids: seq<JobId>, pinned: map<JobId, seq<WorkerId>>,
    params: Params, probes: seq<Moment>, p: Problem, a: Assignment)
    requires Poses(world, travel, onDate, ids, pinned, params, probes, p) && Distinct(ids) && WellKeyed(world)
    requires Feasible(p, a)
    ensures var routes := DayRoutes(p, a, travel);
            Distinct(RoutedJobs(routes)) && I.Exclusive(I.OfWorkers, routes) && I.Exclusive(I.OfVans, routes)
  {
    var routes, crews := DayRoutes(p, a, travel), EmittedCrews(p, a, |p.vans|);
    JobsAreFiled(world, travel, onDate, ids, pinned, params, probes, p);
    forall i | 0 <= i < |routes| ensures OfCrew(p, a, crews[i], routes[i]) && NoRepeats(routes[i]) {
      assert crews[i] in crews;
      CrewRouteIsOfCrew(p, a, travel, crews[i]);
      RouteJobsDistinct(world, p, a, crews[i], routes[i]);
      CrewIdsDistinct(p, a, crews[i], |p.workers|);
    }
    forall i, j | 0 <= i < j < |routes| ensures Apart(routes[i], routes[j]) {
      RoutesStayApart(world, travel, onDate, ids, pinned, params, probes, p, a,
                      crews[i], crews[j], routes[i], routes[j]);
    }
    RoutesApartMakeAPlan(routes);
  }

  /** What the solver's constraints settle by themselves: the routes of any feasible answer to a posed problem
      pass every check but those of the clock, so the plan is valid exactly when each emitted crew passes these. */
  lemma PlanPassesIff(
    world: World, travel: Travel, onDate: Day, ids: seq<JobId>, pinned: map<JobId, seq<WorkerId>>,
    params: Params, probes: seq<Moment>, p: Problem, a: Assignment, config: I.Config, plan: Plan)
    requires Poses(world, travel, onDate, ids, pinned, params, probes, p) && Distinct(ids) && WellKeyed(world)
    requires Feasible(p, a) && plan.routes == DayRoutes(p, a, travel)
    ensures I.PlanOk(plan, world, travel, config) <==>
            forall k: nat :: k < |p.vans| && Emitted(p, a, k) ==> ClockPasses(world, travel, p, a, config, k)
  {
    var routes, crews := plan.routes, EmittedCrews(p, a, |p.vans|);
    DayIsExclusive(world, travel, onDate, ids, pinned, params, probes, p, a);
    forall i | 0 <= i < |routes|
      ensures I.RouteOk(routes[i], world, travel, config) <==> ClockPasses(world, travel, p, a, config, crews[i])
    {
      assert crews[i] in crews;
      OnlyTheClockDecides(world, travel, onDate, ids, pinned, params, probes, p, a, config, crews[i]);
    }
    if I.PlanOk(plan, world, travel, config) {
      forall k: nat | k < |p.vans| && Emitted(p, a, k) ensures ClockPasses(world, travel, p, a, config, k) {
        assert k in crews;
        var i :| 0 <= i < |crews| && crews[i] == k;
        assert I.RouteOk(routes[i], world, travel, config);
      }
    }
    if forall k: nat :: k < |p.vans| && Emitted(p, a, k) ==> ClockPasses(world, travel, p, a, config, k) {
      forall i | 0 <= i < |routes| ensures I.RouteOk(routes[i], world, travel, config) {
        assert crews[i] in crews;
      }
    }
  }

  /** No visit begun on reaching the job, or after, suits a window. */
  ghost predicate MissesItsWindows(job: Job, there: Moment, released: set<JobId>) {
    forall t :: t >= there ==> !WindowHolds(job, t, released)
  }

  /** A crew that cannot reach its first job in time for any window is refused, whatever the search finds. */
  lemma TooLateIsRefused(
    world: World, travel: Travel, p: Problem, a: Assignment, config: I.Config, k: nat, plan: Plan)
    requires k < |p.vans| && Emitted(p, a, k) && Filed(world, p) && plan.routes == DayRoutes(p, a, travel)
    requires var clock, job := DayStart(p.onDate) + a.crewStart(k), SequencedJobs(p, a, k)[0];
             MissesItsWindows(job, clock + travel(p.vans[k].homeDepot, job.location, clock).minutes, config.released)
    ensures !I.PlanOk(plan, world, travel, config)
  {
    var clock, jobs := DayStart(p.onDate) + a.crewStart(k), SequencedJobs(p, a, k);
    SequencedJobsFiled(world, p, a, k);
    LateStopIsRefused(world, travel, p.vans[k].homeDepot, clock, jobs, config.released);
    CrewRouteWalks(p, a, travel, k);
    var i := PlaceOf(p, a, travel, k);
    StopSpoilsThePlan(world, travel, config, plan, i, 0);
  }

  /** Where an emitted crew's route is among the day's. */
  lemma PlaceOf(p: Problem, a: Assignment, travel: Travel, k: nat) returns (i: nat)
    requires k < |p.vans| && Emitted(p, a, k)
    ensures i < |DayRoutes(p, a, travel)| && DayRoutes(p, a, travel)[i] == CrewRoute(p, a, travel, k)
  {
    var crews := EmittedCrews(p, a, |p.vans|);
    assert k in crews;
    i :| 0 <= i < |crews| && crews[i] == k;
  }

  lemma StopSpoilsThePlan(world: World, travel: Travel, config: I.Config, plan: Plan, i: nat, j: nat)
    requires i < |plan.routes| && j < |plan.routes[i].stops|
    requires !I.StopInWindow(plan.routes[i].stops[j], world, config.released)
    ensures !I.PlanOk(plan, world, travel, config)
  {
    assert !I.WindowsOk(plan.routes[i], world, config.released);
    assert !I.RouteOk(plan.routes[i], world, travel, config);
  }

  lemma LateStopIsRefused(
    world: World, travel: Travel, depot: Location, clock: Moment, jobs: seq<Job>, released: set<JobId>)
    requires jobs != [] && JobsFiled(world, jobs)
    requires MissesItsWindows(jobs[0], clock + travel(depot, jobs[0].location, clock).minutes, released)
    ensures !I.StopInWindow(Walk(travel, depot, clock, jobs)[0], world, released)
  {
    var stop := Walk(travel, depot, clock, jobs)[0];
    FromTheDoor(travel, depot, clock, jobs, 0);
    assert !WindowHolds(jobs[0], stop.arrival, released);
    SuitingIsSatisfying(jobs[0], stop, released);
  }

  /** Under the edges a crew's route runs on time. */
  lemma RouteRunsOnTime(world: World, travel: Travel, p: Problem, a: Assignment, config: I.Config, k: nat)
    requires Feasible(p, a) && Edges(world, travel, p, a, config) && k < |p.vans| && Emitted(p, a, k)
    ensures RunsOnTime(p, a, k, CrewRoute(p, a, travel, k))
  {
    assert CrewEdges(world, p, a, travel, k, config);
    SolutionsAreWellPlanned(p, a, travel, k, config.released);
    WellPlannedRunsOnTime(p, a, travel, k);
  }

  /** And so passes the checks that read the clock. */
  lemma TimesAgree(world: World, travel: Travel, p: Problem, a: Assignment, config: I.Config, k: nat)
    requires Feasible(p, a) && Edges(world, travel, p, a, config) && k < |p.vans| && Emitted(p, a, k) && Filed(world, p)
    requires WorkersPosed(world, p.onDate, p) && VansPosed(world, p.onDate, p)
    ensures ClockPasses(world, travel, p, a, config, k)
  {
    var route := CrewRoute(p, a, travel, k);
    assert CrewEdges(world, p, a, travel, k, config);
    RouteRunsOnTime(world, travel, p, a, config, k);
    OutingClearIff(world, p, a, config, k, route);
    StopsKeepToStarts(p, a, k, route, config.released);
    WindowsHold(world, travel, p, a, k, config.released);
  }

  /** Planner and checker agree: the routes made from any assignment that satisfies the planner's
      constraints violate no invariant. */
  lemma PlannerAndCheckerAgree(
    world: World, travel: Travel, onDate: Day, ids: seq<JobId>, pinned: map<JobId, seq<WorkerId>>,
    params: Params, probes: seq<Moment>, p: Problem, a: Assignment, config: I.Config, plan: Plan)
    requires Poses(world, travel, onDate, ids, pinned, params, probes, p) && Distinct(ids)
    requires Feasible(p, a) && Edges(world, travel, p, a, config)
    requires plan.routes == DayRoutes(p, a, travel)
    ensures I.PlanOk(plan, world, travel, config)
  {
    JobsAreFiled(world, travel, onDate, ids, pinned, params, probes, p);
    forall k: nat | k < |p.vans| && Emitted(p, a, k) ensures ClockPasses(world, travel, p, a, config, k) {
      TimesAgree(world, travel, p, a, config, k);
    }
    PlanPassesIff(world, travel, onDate, ids, pinned, params, probes, p, a, config, plan);
  }

  lemma PlainRequestsSuit(p: Problem, a: Assignment, travel: Travel, k: nat, released: set<JobId>)
    requires Feasible(p, a) && k < |p.vans| && RequestedBefore(p)
    ensures RequestsSuit(p, a, travel, k, released)
  {
    SequencedWereAsked(p, a, k);
    AskedBeforehand(travel, p.vans[k].homeDepot, DayStart(p.onDate) + a.crewStart(k), SequencedJobs(p, a, k), released);
  }

  lemma SequencedWereAsked(p: Problem, a: Assignment, k: nat)
    requires Feasible(p, a) && k < |p.vans| && RequestedBefore(p)
    ensures AllAskedBy(SequencedJobs(p, a, k), DayStart(p.onDate) + a.crewStart(k))
  {
    SequenceFacts(p, a, k);
  }

  /** Every job with windows was asked for by then. */
  predicate AllAskedBy(jobs: seq<Job>, t: Moment) {
    forall i :: 0 <= i < |jobs| && jobs[i].windows != [] ==> jobs[i].requestedAt <= t
  }

  lemma AskedBeforehand(travel: Travel, depot: Location, clock: Moment, jobs: seq<Job>, released: set<JobId>)
    requires AllAskedBy(jobs, clock)
    ensures forall i: nat :: i < |jobs| ==> AskedAt(travel, depot, clock, jobs, i, released)
  {
    forall i: nat | i < |jobs| ensures AskedAt(travel, depot, clock, jobs, i, released) {
      DoorComesLate(travel, depot, clock, jobs, i);
    }
  }

  /** On steady roads from one depot, with requests made before the day, outages that end after they begin and crews
      home within everyone's usable stretch, overtime allowed or not: promises of one window, and released ones the
      checker was told of, or whose starts suit them all the same. */
  lemma SteadyDayAgrees(
    world: World, travel: Travel, onDate: Day, ids: seq<JobId>, pinned: map<JobId, seq<WorkerId>>,
    params: Params, probes: seq<Moment>, p: Problem, a: Assignment, config: I.Config, plan: Plan)
    requires Poses(world, travel, onDate, ids, pinned, params, probes, p) && Distinct(ids) && Feasible(p, a)
    requires WellKeyed(world) && OutagesAreReal(world) && TimeIndependent(travel)
    requires OneDepot(p) && RequestedBefore(p)
    requires forall k: nat :: k < |p.vans| && Emitted(p, a, k) ==>
               HomeInStretch(p, a, k) && ReleasedSuit(p, a, k, config.released)
    requires forall j :: 0 <= j < |p.jobs| && p.jobs[j].commitment.Confirmed? && p.jobs[j].id !in config.released ==>
               |p.jobs[j].windows| <= 1
    requires plan.routes == DayRoutes(p, a, travel)
    ensures I.PlanOk(plan, world, travel, config)
  {
    SteadyTravelSuffices(travel, probes, p, a, config.slack, config.released);
    forall k: nat | k < |p.vans| && Emitted(p, a, k) ensures CrewEdges(world, p, a, travel, k, config) {
      SteadyCrewEdges(world, travel, p, a, config, k);
    }
    PlannerAndCheckerAgree(world, travel, onDate, ids, pinned, params, probes, p, a, config, plan);
  }

  lemma SteadyCrewEdges(world: World, travel: Travel, p: Problem, a: Assignment, config: I.Config, k: nat)
    requires Feasible(p, a) && OutagesAreReal(world) && RequestedBefore(p) && k < |p.vans| && Emitted(p, a, k)
    requires Pessimistic(p, a, travel, k) && Timely(p, a, travel, k) && FirstLegSuits(p, a, travel, k, config.slack)
    requires Punctual(p, a, travel, k, config.released)
    requires HomeInStretch(p, a, k) && ReleasedSuit(p, a, k, config.released)
    requires forall j :: 0 <= j < |p.jobs| && p.jobs[j].commitment.Confirmed? && p.jobs[j].id !in config.released ==>
               |p.jobs[j].windows| <= 1
    ensures CrewEdges(world, p, a, travel, k, config)
  {
    PlainRequestsSuit(p, a, travel, k, config.released);
    PlainPromises(p, a, k, config.released);
    SolutionsAreWellPlanned(p, a, travel, k, config.released);
    WellPlannedRunsOnTime(p, a, travel, k);
    HomeInStretchIsClear(world, p, a, config, k, CrewRoute(p, a, travel, k));
  }

  lemma PlainPromises(p: Problem, a: Assignment, k: nat, released: set<JobId>)
    requires forall j :: 0 <= j < |p.jobs| && p.jobs[j].commitment.Confirmed? && p.jobs[j].id !in released ==>
               |p.jobs[j].windows| <= 1
    ensures PromisesHold(p, a, k, released)
  {
    forall j | 0 <= j < |p.jobs| && a.visit(j, k) ensures PromiseHolds(p.jobs[j], released) {
      if p.jobs[j].commitment.Confirmed? && p.jobs[j].id !in released {
        PlainPromisesHold(p.jobs[j].windows, p.jobs[j].duration);
      }
    }
  }

  lemma NobodyStaysLate(world: World, p: Problem, a: Assignment, k: nat)
    requires Feasible(p, a) && k < |p.vans| && p.overtime == 0 && WorkersPosed(world, p.onDate, p)
    requires forall w, d :: (w, d) !in world.shiftExtensions
    ensures HomeInStretch(p, a, k)
  {
    forall i | 0 <= i < |p.workers| && a.assign(i, k) ensures a.crewEnd(k) <= p.span[i].1 {
      assert Allowance(p, i) == 0;
    }
  }

  /** The plain case: steady travel, no overtime and nobody asked to stay late, one depot, requests made
      before the day, outages that end after they begin, promises of one window, none released. */
  lemma PlainDayAgrees(
    world: World, travel: Travel, onDate: Day, ids: seq<JobId>, pinned: map<JobId, seq<WorkerId>>,
    params: Params, probes: seq<Moment>, p: Problem, a: Assignment, config: I.Config, plan: Plan)
    requires Poses(world, travel, onDate, ids, pinned, params, probes, p) && Distinct(ids) && Feasible(p, a)
    requires WellKeyed(world) && OutagesAreReal(world)
    requires TimeIndependent(travel)
    requires !params.allowOvertime && forall w, d :: (w, d) !in world.shiftExtensions
    requires OneDepot(p) && RequestedBefore(p) && NothingReleased(p, a)
    requires forall j :: 0 <= j < |p.jobs| && p.jobs[j].commitment.Confirmed? ==> |p.jobs[j].windows| <= 1
    requires plan.routes == DayRoutes(p, a, travel)
    ensures I.PlanOk(plan, world, travel, config)
  {
    forall k: nat | k < |p.vans| && Emitted(p, a, k)
      ensures HomeInStretch(p, a, k) && ReleasedSuit(p, a, k, config.released)
    {
      NobodyStaysLate(world, p, a, k);
    }
    SteadyDayAgrees(world, travel, onDate, ids, pinned, params, probes, p, a, config, plan);
  }
}
