/** The entities of the dispatch domain and the read-only queries on them.
    Moments are whole minutes on one axis; day `d` runs from `DayStart(d)` for 1440 minutes. */
module Domain {
  import opened Collections

  type Moment = int
  type Day = int
  type positive = n: int | 0 < n witness 1

  const MINUTES_PER_DAY := 1440

  function DayStart(d: Day): Moment { d * MINUTES_PER_DAY }

  function DayOf(t: Moment): Day { t / MINUTES_PER_DAY }

  function ClockOf(t: Moment): int { t % MINUTES_PER_DAY }

  /** 0 is Monday, and day 1 is a Monday. */
  function Weekday(d: Day): int { (d + 6) % 7 }

  lemma ClockWithinDay(d: Day, t: Moment)
    requires DayStart(d) <= t < DayStart(d) + MINUTES_PER_DAY
    ensures DayOf(t) == d && ClockOf(t) == t - DayStart(d)
  {
  }

  type WorkerId = string
  type VanId = string
  type JobId = string
  type PlanId = string
  type PartCode = string

  datatype Location = Location(lat: real, lon: real)

  // -------------------------------------------------------------------- travel

  datatype Leg = Leg(minutes: nat, miles: real)

  /** How long from here to there, leaving then. */
  type Travel = (Location, Location, Moment) -> Leg

  ghost predicate TimeIndependent(travel: Travel) {
    forall a: Location, b: Location, t: Moment, u: Moment :: travel(a, b, t) == travel(a, b, u)
  }

  // ---------------------------------------------------------------------- jobs

  datatype Hardness = Hard | Soft

  datatype Window = Window(start: Moment, end: Moment, hardness: Hardness)

  datatype Certification =
    | ResidentialGlazing | CommercialStorefront | AutoGlass | TemperedSafety | ScreenRepair | ShowerDoor

  datatype Material = Material(partCode: PartCode, quantity: positive, inStock: bool, leadTimeDays: nat)

  datatype Commitment = Draft | Provisional | Confirmed | Dispatched | Completed | Cancelled

  datatype Job = Job(
    id: JobId,
    customerName: string,
    location: Location,
    glassPanes: Option<positive>,
    requiredCertifications: set<Certification>,
    crewSize: positive,
    duration: positive,
    materials: seq<Material>,
    windows: seq<Window>,
    commitment: Commitment,
    commitmentCost: int,
    deferrals: nat,
    requestedAt: Moment)

  predicate IsActive(job: Job) { !job.commitment.Completed? && !job.commitment.Cancelled? }

  function Panes(job: Job): positive {
    if job.glassPanes.Some? then job.glassPanes.value else 1
  }

  function AvailableFrom(m: Material, orderedOn: Day): Day {
    if m.inStock then orderedOn else orderedOn + m.leadTimeDays
  }

  /** The day the last of a job's parts exists. */
  function LatestPart(materials: seq<Material>, orderedOn: Day): Day
    requires materials != []
  {
    var last := AvailableFrom(materials[|materials| - 1], orderedOn);
    if |materials| == 1 then last else Max(LatestPart(materials[..|materials| - 1], orderedOn), last)
  }

  function EarliestMaterialDay(job: Job): Day {
    if job.materials == [] then DayOf(job.requestedAt)
    else LatestPart(job.materials, DayOf(job.requestedAt))
  }

  /** The day has come on which a part is there: at once when in stock, else when its lead time is over. */
  predicate ArrivedBy(m: Material, orderedOn: Day, d: Day) { m.inStock || orderedOn + m.leadTimeDays <= d }

  /** The job was asked for by then, and every part it needs exists. */
  predicate PartsExistBy(job: Job, d: Day) {
    DayOf(job.requestedAt) <= d && forall m :: m in job.materials ==> ArrivedBy(m, DayOf(job.requestedAt), d)
  }

  lemma {:induction false} LatestPartIff(materials: seq<Material>, orderedOn: Day, d: Day)
    requires materials != []
    ensures LatestPart(materials, orderedOn) <= d <==>
            orderedOn <= d && forall m :: m in materials ==> ArrivedBy(m, orderedOn, d)
  {
    var n := |materials| - 1;
    assert materials == materials[..n] + [materials[n]];
    assert forall m :: m in materials <==> m in materials[..n] || m == materials[n];
    assert AvailableFrom(materials[n], orderedOn) <= d <==> orderedOn <= d && ArrivedBy(materials[n], orderedOn, d);
    if n > 0 {
      LatestPartIff(materials[..n], orderedOn, d);
    }
  }

  /** The one day both planner and checker go by is the first on which every part exists. */
  lemma MaterialDayIff(job: Job, d: Day)
    ensures EarliestMaterialDay(job) <= d <==> PartsExistBy(job, d)
  {
    if job.materials != [] {
      LatestPartIff(job.materials, DayOf(job.requestedAt), d);
    }
  }

  // ----------------------------------------------------------------- resources

  /** A rostered day, in minutes from local midnight. */
  datatype RawHours = RawHours(weekday: int, start: int, end: int)

  type DayHours = h: RawHours | 0 <= h.start < h.end < MINUTES_PER_DAY witness RawHours(0, 0, 1)

  datatype Worker = Worker(
    id: WorkerId,
    name: string,
    certifications: set<Certification>,
    workingHours: seq<DayHours>,
    overtimeEligible: bool)

  function FirstHours(hours: seq<DayHours>, weekday: int): Option<DayHours> {
    if hours == [] then None
    else if hours[0].weekday == weekday then Some(hours[0])
    else FirstHours(hours[1..], weekday)
  }

  /** The first entry for the weekday counts. */
  lemma {:induction false} FirstHoursAre(hours: seq<DayHours>, weekday: int)
    ensures FirstHours(hours, weekday).None? <==> forall h :: h in hours ==> h.weekday != weekday
    ensures FirstHours(hours, weekday).Some? ==>
              exists i :: 0 <= i < |hours| && FirstFor(hours, weekday, i)
                          && hours[i] == FirstHours(hours, weekday).value
  {
    if hours != [] {
      if hours[0].weekday == weekday {
        assert FirstFor(hours, weekday, 0);
      } else {
        FirstHoursAre(hours[1..], weekday);
        if FirstHours(hours[1..], weekday).Some? {
          var i :| 0 <= i < |hours| - 1 && FirstFor(hours[1..], weekday, i)
                   && hours[1..][i] == FirstHours(hours, weekday).value;
          assert FirstFor(hours, weekday, i + 1);
        }
        assert forall h :: h in hours <==> h == hours[0] || h in hours[1..];
      }
    }
  }

  predicate FirstFor(hours: seq<DayHours>, weekday: int, i: nat)
    requires i < |hours|
  {
    hours[i].weekday == weekday && forall j :: 0 <= j < i ==> hours[j].weekday != weekday
  }

  function HoursFor(worker: Worker, weekday: int): Option<DayHours> {
    FirstHours(worker.workingHours, weekday)
  }

  datatype Van = Van(id: VanId, rackSlots: positive, stock: map<PartCode, int>, homeDepot: Location)

  // --------------------------------------------------------------------- plans

  datatype Stop = Stop(
    jobId: JobId,
    arrival: Moment,
    departure: Moment,
    travelMinutes: nat,
    travelMiles: real)

  datatype Route = Route(
    crewId: string,
    date: Day,
    workerIds: seq<WorkerId>,
    vanId: VanId,
    stops: seq<Stop>,
    returnMinutes: nat,
    returnMiles: real)

  datatype Plan = Plan(
    id: PlanId,
    parentId: Option<PlanId>,
    createdAt: Moment,
    horizonStart: Day,
    horizonEnd: Day,
    routes: seq<Route>,
    unserved: seq<JobId>,
    name: string)

  function SetOf<T>(s: seq<T>): set<T> { set x | x in s }

  lemma {:induction false} DistinctSize<T>(s: seq<T>)
    requires Distinct(s)
    ensures |SetOf(s)| == |s|
  {
    if s != [] {
      DistinctSize(s[1..]);
      assert SetOf(s) == SetOf(s[1..]) + {s[0]};
    }
  }

  function StopJobs(stops: seq<Stop>): (r: seq<JobId>)
    ensures |r| == |stops|
    ensures forall i :: 0 <= i < |stops| ==> r[i] == stops[i].jobId
  {
    seq(|stops|, i requires 0 <= i < |stops| => stops[i].jobId)
  }

  /** The job of every stop of every route, in order. */
  function RoutedJobs(routes: seq<Route>): seq<JobId> {
    if routes == [] then [] else RoutedJobs(routes[..|routes| - 1]) + StopJobs(routes[|routes| - 1].stops)
  }

  lemma {:induction false} RoutedJobsMembers(routes: seq<Route>, id: JobId)
    ensures id in RoutedJobs(routes) <==> OnSomeRoute(routes, id)
  {
    if routes != [] {
      RoutedJobsMembers(routes[..|routes| - 1], id);
      OnSomeRouteSnoc(routes, id);
    }
  }

  predicate OnSomeRoute(routes: seq<Route>, id: JobId) {
    exists i :: 0 <= i < |routes| && id in StopJobs(routes[i].stops)
  }

  lemma OnSomeRouteSnoc(routes: seq<Route>, id: JobId)
    requires routes != []
    ensures var n := |routes| - 1;
            OnSomeRoute(routes, id) <==> OnSomeRoute(routes[..n], id) || id in StopJobs(routes[n].stops)
  {
    var n := |routes| - 1;
    if OnSomeRoute(routes[..n], id) {
      var i :| 0 <= i < n && id in StopJobs(routes[..n][i].stops);
      assert id in StopJobs(routes[i].stops);
    }
    if OnSomeRoute(routes, id) && id !in StopJobs(routes[n].stops) {
      var i :| 0 <= i < |routes| && id in StopJobs(routes[i].stops);
      assert id in StopJobs(routes[..n][i].stops);
    }
  }

  lemma {:induction false} RoutedJobsJoin(a: seq<Route>, b: seq<Route>)
    ensures RoutedJobs(a + b) == RoutedJobs(a) + RoutedJobs(b)
    decreases |b|
  {
    if b == [] {
      assert a + b == a;
    } else {
      var n := |b| - 1;
      RoutedJobsJoin(a, b[..n]);
      assert (a + b)[..|a + b| - 1] == a + b[..n] && (a + b)[|a + b| - 1] == b[n];
      Regroup(RoutedJobs(a), RoutedJobs(b[..n]), StopJobs(b[n].stops));
    }
  }

  // --------------------------------------------------------------------- world

  /** An outage. `until` of `None` is open-ended. */
  datatype Unavailability = Unavailability(from: Moment, until: Option<Moment>, reason: string)

  /** Whether the outage overlaps `[start, end)`, as the source computes it. */
  predicate Covers(o: Unavailability, start: Moment, end: Moment) {
    o.from < end && (o.until.None? || start < o.until.value)
  }

  predicate WellFormed(o: Unavailability) { o.until.Some? ==> o.from < o.until.value }

  datatype OvertimeOffer = OvertimeOffer(
    jobId: JobId,
    onDate: Day,
    offeredTo: seq<WorkerId>,
    fallback: WorkerId,
    overtimeMinutes: int,
    claimDeadline: Moment,
    claimedBy: Option<WorkerId>)

  datatype CrewAsk = CrewAsk(
    askId: string,
    customerName: string,
    onDate: Day,
    until: Moment,
    candidates: seq<WorkerId>)

  datatype TrafficOverride = TrafficOverride(
    origin: Option<string>,
    dest: Option<string>,
    multiplier: real,
    from: Moment,
    until: Option<Moment>)

  datatype World = World(
    asOf: Moment,
    workers: map<WorkerId, Worker>,
    vans: map<VanId, Van>,
    jobs: map<JobId, Job>,
    workerOutages: map<WorkerId, seq<Unavailability>>,
    vanOutages: map<VanId, seq<Unavailability>>,
    overtimeOffers: map<JobId, OvertimeOffer>,
    shiftExtensions: map<(WorkerId, Day), Moment>,
    crewAsks: map<string, CrewAsk>,
    rateCard: map<string, real>,
    trafficOverrides: seq<TrafficOverride>,
    committedPlan: Option<PlanId>,
    appliedEvents: nat)

  /** Every record is filed under its own id. */
  predicate WellKeyed(world: World) {
    && (forall k :: k in world.workers ==> world.workers[k].id == k)
    && (forall k :: k in world.vans ==> world.vans[k].id == k)
    && (forall k :: k in world.jobs ==> world.jobs[k].id == k)
  }

  function WorkerOutages(world: World, w: WorkerId): seq<Unavailability> { GetOr(world.workerOutages, w, []) }

  function VanOutages(world: World, v: VanId): seq<Unavailability> { GetOr(world.vanOutages, v, []) }

  predicate NoneCovers(outages: seq<Unavailability>, start: Moment, end: Moment) {
    forall i :: 0 <= i < |outages| ==> !Covers(outages[i], start, end)
  }

  predicate IsWorkerAvailable(world: World, w: WorkerId, start: Moment, end: Moment) {
    w in world.workers && NoneCovers(WorkerOutages(world, w), start, end)
  }

  predicate IsVanAvailable(world: World, v: VanId, start: Moment, end: Moment) {
    v in world.vans && NoneCovers(VanOutages(world, v), start, end)
  }
}
