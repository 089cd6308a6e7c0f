/** One day's model: what the planner builds from the world, the constraints it hands the solver,
    and how a solution becomes routes (scheduler/day_planner.py). The solver is any source of
    assignments that satisfy the constraints. */
module DayPlanner {
  import opened Collections
  import opened Domain
  import opened FreeInterval
  import opened Routing

  /** `travelBucket` forces the matrix to be sampled at one minute of the day. */
  datatype Params = Params(allowOvertime: bool, overtimeMinutes: nat, travelBucket: Option<int>)

  datatype Problem = Problem(
    onDate: Day,
    jobs: seq<Job>,
    workers: seq<Worker>,
    span: seq<Interval>,
    extension: seq<Option<Moment>>,
    vans: seq<Van>,
    vanWindow: seq<Interval>,
    matrix: seq<seq<nat>>,
    overtime: nat,
    locked: set<JobId>,
    pins: seq<set<WorkerId>>)

  /** A value for every variable of the model. Jobs, workers and crews are numbered from 0; in arcs
      node 0 is the depot and node `j + 1` is job `j`. */
  datatype Assignment = Assignment(
    assign: (nat, nat) -> bool,
    visit: (nat, nat) -> bool,
    served: nat -> bool,
    released: nat -> bool,
    start: (nat, nat) -> int,
    active: nat -> bool,
    crewStart: nat -> int,
    crewEnd: nat -> int,
    arc: (nat, nat, nat) -> bool,
    selector: (nat, nat, nat) -> bool)

  // ------------------------------------------------------- building the problem

  function ClampToDay(t: Moment, dayStart: Moment): Option<int> {
    var delta := t - dayStart;
    if delta < -MINUTES_PER_DAY || delta > 2 * MINUTES_PER_DAY then None else Some(delta)
  }

  predicate WindowsTouchDay(job: Job, dayStart: Moment) {
    job.windows == [] ||
    exists i :: 0 <= i < |job.windows| &&
                job.windows[i].start < dayStart + MINUTES_PER_DAY && dayStart < job.windows[i].end
  }

  /** Of windows that end after they begin, one touches the day exactly when they share a moment. */
  lemma TouchingIsSharing(job: Job, dayStart: Moment)
    requires job.windows != [] && forall w :: w in job.windows ==> w.start < w.end
    ensures WindowsTouchDay(job, dayStart) <==>
            exists w, m: Moment :: w in job.windows && OpenOn(w, dayStart, m)
  {
    if WindowsTouchDay(job, dayStart) {
      var i :| 0 <= i < |job.windows| && job.windows[i].start < dayStart + MINUTES_PER_DAY
               && dayStart < job.windows[i].end;
      var w := job.windows[i];
      var m := Max(w.start, dayStart);
      assert w in job.windows && OpenOn(w, dayStart, m);
    }
  }

  /** A moment of the day at which the window is open. */
  predicate OpenOn(w: Window, dayStart: Moment, m: Moment) {
    w.start <= m < w.end && dayStart <= m < dayStart + MINUTES_PER_DAY
  }

  predicate IsCandidate(world: World, onDate: Day, id: JobId) {
    && id in world.jobs
    && IsActive(world.jobs[id])
    && PartsExistBy(world.jobs[id], onDate)
    && WindowsTouchDay(world.jobs[id], DayStart(onDate))
  }

  /** The candidate ids that enter the model. */
  function Eligible(world: World, onDate: Day, ids: seq<JobId>): (r: seq<JobId>)
    ensures forall x :: x in r <==> x in ids && IsCandidate(world, onDate, x)
    ensures Distinct(ids) ==> Distinct(r)
  {
    if ids == [] then []
    else
      var rest := Eligible(world, onDate, ids[..|ids| - 1]);
      if IsCandidate(world, onDate, ids[|ids| - 1]) then rest + [ids[|ids| - 1]] else rest
  }

  function Node(p: Problem, i: nat): Location
    requires p.vans != [] && i <= |p.jobs|
  {
    if i == 0 then p.vans[0].homeDepot else p.jobs[i - 1].location
  }

  /** Each traffic bucket: its span and the minute at which it is sampled. */
  const BUCKETS: seq<(int, int, int)> := [
    (0, 420, 360), (420, 570, 480), (570, 900, 720), (900, 1110, 960), (1110, MINUTES_PER_DAY, 1140)
  ]

  /** Every bucket touched between the earliest start and the latest end, overtime included, is sampled. */
  predicate ProbesPosed(params: Params, probes: seq<Moment>, p: Problem) {
    && probes != []
    && (params.travelBucket.None? ==>
          forall b, i, j :: b in BUCKETS && 0 <= i < |p.span| && 0 <= j < |p.span|
                            && p.span[i].0 < b.1 && b.0 < p.span[j].1 + p.overtime ==>
            DayStart(p.onDate) + b.2 in probes)
  }

  function WorstLeg(travel: Travel, from: Location, to: Location, probes: seq<Moment>): nat {
    if probes == [] then 0
    else
      var rest := WorstLeg(travel, from, to, probes[..|probes| - 1]);
      var leg := travel(from, to, probes[|probes| - 1]).minutes;
      if rest < leg then leg else rest
  }

  /** The slowest of the samples: none is slower, and it is one of them. */
  lemma {:induction false} WorstLegIsASample(travel: Travel, from: Location, to: Location, probes: seq<Moment>)
    returns (i: nat)
    requires probes != []
    ensures i < |probes| && travel(from, to, probes[i]).minutes == WorstLeg(travel, from, to, probes)
    ensures forall j :: 0 <= j < |probes| ==> travel(from, to, probes[j]).minutes <= WorstLeg(travel, from, to, probes)
  {
    var n := |probes| - 1;
    i := n;
    if n > 0 {
      var slowest := WorstLegIsASample(travel, from, to, probes[..n]);
      assert forall j :: 0 <= j < n ==> probes[..n][j] == probes[j];
      if travel(from, to, probes[n]).minutes <= WorstLeg(travel, from, to, probes[..n]) {
        i := slowest;
      }
    } else {
      assert WorstLeg(travel, from, to, probes[..n]) == 0;
    }
  }

  /** Who must be aboard whichever crew serves the job: the claimant of its overtime offer for the
      day, and the people the caller pinned; either only while rostered that day. */
  function PinsFor(world: World, onDate: Day, job: JobId, pinned: map<JobId, seq<WorkerId>>, available: set<WorkerId>)
    : set<WorkerId>
  {
    var claimed := if job in world.overtimeOffers && world.overtimeOffers[job].claimedBy.Some?
                      && world.overtimeOffers[job].onDate == onDate
                   then {world.overtimeOffers[job].claimedBy.value} else {};
    (claimed + SetOf(GetOr(pinned, job, []))) * available
  }

  /** A worker enters the model with the longest usable stretch of the rostered shift. */
  ghost predicate Usable(world: World, onDate: Day, w: Worker, span: Interval) {
    var hours := HoursFor(w, Weekday(onDate));
    hours.Some? &&
    IsLargestFree(WorkerOutages(world, w.id), DayStart(onDate), (hours.value.start, hours.value.end), Some(span))
  }

  ghost predicate UsableVan(world: World, onDate: Day, v: Van, span: Interval) {
    IsLargestFree(VanOutages(world, v.id), DayStart(onDate), (0, MINUTES_PER_DAY), Some(span))
  }

  function IdsOf(workers: seq<Worker>): (r: seq<WorkerId>)
    ensures |r| == |workers| && forall i :: 0 <= i < |r| ==> r[i] == workers[i].id
  {
    seq(|workers|, i requires 0 <= i < |workers| => workers[i].id)
  }

  function VanIdsOf(vans: seq<Van>): (r: seq<VanId>)
    ensures |r| == |vans| && forall i :: 0 <= i < |r| ==> r[i] == vans[i].id
  {
    seq(|vans|, i requires 0 <= i < |vans| => vans[i].id)
  }

  /** Exactly the usable workers, by id, each with a longest usable stretch. */
  ghost predicate Rostered(
    world: World, onDate: Day, workers: seq<Worker>, span: seq<Interval>, extension: seq<Option<Moment>>)
  {
    && |span| == |extension| == |workers|
    && Distinct(IdsOf(workers))
    && SortedBy(IdsOf(workers), StringLe)
    && (forall i :: 0 <= i < |workers| ==>
          && workers[i].id in world.workers
          && world.workers[workers[i].id] == workers[i]
          && Usable(world, onDate, workers[i], span[i])
          && extension[i] == Get(world.shiftExtensions, (workers[i].id, onDate)))
    && (forall id, s :: id in world.workers && Usable(world, onDate, world.workers[id], s) ==> id in IdsOf(workers))
  }

  ghost predicate Garaged(world: World, onDate: Day, vans: seq<Van>, window: seq<Interval>) {
    && |window| == |vans|
    && Distinct(VanIdsOf(vans))
    && SortedBy(VanIdsOf(vans), StringLe)
    && (forall k :: 0 <= k < |vans| ==>
          && vans[k].id in world.vans
          && world.vans[vans[k].id] == vans[k]
          && UsableVan(world, onDate, vans[k], window[k]))
    && (forall id, s :: id in world.vans && UsableVan(world, onDate, world.vans[id], s) ==> id in VanIdsOf(vans))
  }

  ghost predicate WorkersPosed(world: World, onDate: Day, p: Problem) {
    Rostered(world, onDate, p.workers, p.span, p.extension)
  }

  ghost predicate VansPosed(world: World, onDate: Day, p: Problem) { Garaged(world, onDate, p.vans, p.vanWindow) }

  ghost predicate JobsPosed(world: World, onDate: Day, ids: seq<JobId>, p: Problem) {
    var eligible := Eligible(world, onDate, ids);
    && |p.jobs| == |eligible|
    && forall j :: 0 <= j < |p.jobs| ==> eligible[j] in world.jobs && p.jobs[j] == world.jobs[eligible[j]]
  }

  ghost predicate MatrixPosed(travel: Travel, probes: seq<Moment>, p: Problem) {
    p.vans != [] ==>
      && |p.matrix| == |p.jobs| + 1
      && forall i :: 0 <= i <= |p.jobs| ==>
           && |p.matrix[i]| == |p.jobs| + 1
           && forall j :: 0 <= j <= |p.jobs| && i != j ==>
                p.matrix[i][j] == WorstLeg(travel, Node(p, i), Node(p, j), probes)
  }

  ghost predicate PinsPosed(world: World, onDate: Day, pinned: map<JobId, seq<WorkerId>>, p: Problem) {
    && |p.pins| == |p.jobs|
    && forall j :: 0 <= j < |p.jobs| ==>
         p.pins[j] == PinsFor(world, onDate, p.jobs[j].id, pinned, SetOf(IdsOf(p.workers)))
  }

  /** `p` is the problem the planner poses for the day. */
  ghost predicate Poses(
    world: World, travel: Travel, onDate: Day, ids: seq<JobId>, pinned: map<JobId, seq<WorkerId>>,
    params: Params, probes: seq<Moment>, p: Problem)
  {
    && p.onDate == onDate
    && p.overtime == (if params.allowOvertime then params.overtimeMinutes else 0)
    && JobsPosed(world, onDate, ids, p)
    && WorkersPosed(world, onDate, p)
    && VansPosed(world, onDate, p)
    && MatrixPosed(travel, probes, p)
    && ProbesPosed(params, probes, p)
    && PinsPosed(world, onDate, pinned, p)
  }

  // --------------------------------------------------------------- constraints

  predicate Sized(p: Problem) {
    && |p.span| == |p.extension| == |p.workers|
    && |p.vanWindow| == |p.vans|
    && |p.pins| == |p.jobs|
    && |p.matrix| == |p.jobs| + 1
    && forall i :: 0 <= i < |p.matrix| ==> |p.matrix[i]| == |p.jobs| + 1
  }

  /** Minutes past the usable stretch a member may be kept: the standard allowance, or the hour agreed
      for the day, whichever is later. */
  function Allowance(p: Problem, i: nat): int
    requires Sized(p) && i < |p.workers|
  {
    var standard := if p.workers[i].overtimeEligible then p.overtime else 0;
    var agreed := if p.extension[i].Some? then ClampToDay(p.extension[i].value, DayStart(p.onDate)) else None;
    if agreed.Some? then Max(standard, agreed.value - p.span[i].1) else standard
  }

  function Headcount(a: Assignment, k: nat, n: nat): nat {
    if n == 0 then 0 else Headcount(a, k, n - 1) + if a.assign(n - 1, k) then 1 else 0
  }

  function HoldersAboard(p: Problem, a: Assignment, k: nat, cert: Certification, n: nat): nat
    requires n <= |p.workers|
  {
    if n == 0 then 0
    else HoldersAboard(p, a, k, cert, n - 1)
         + if a.assign(n - 1, k) && cert in p.workers[n - 1].certifications then 1 else 0
  }

  function CrewsVisiting(a: Assignment, j: nat, n: nat): nat {
    if n == 0 then 0 else CrewsVisiting(a, j, n - 1) + if a.visit(j, n - 1) then 1 else 0
  }

  function PaneLoad(p: Problem, a: Assignment, k: nat, n: nat): nat
    requires n <= |p.jobs|
  {
    if n == 0 then 0 else PaneLoad(p, a, k, n - 1) + if a.visit(n - 1, k) then Panes(p.jobs[n - 1]) else 0
  }

  function PartLoad(p: Problem, a: Assignment, k: nat, part: PartCode, n: nat): nat
    requires n <= |p.jobs|
  {
    if n == 0 then 0
    else PartLoad(p, a, k, part, n - 1) + if a.visit(n - 1, k) then PartNeed(p.jobs[n - 1].materials, part) else 0
  }

  /** How many of a part the model charges a job for. */
  function PartNeed(materials: seq<Material>, part: PartCode): nat {
    if materials == [] then 0
    else (if materials[0].inStock && materials[0].partCode == part then materials[0].quantity else 0)
         + PartNeed(materials[1..], part)
  }

  ghost predicate AssignmentRules(p: Problem, a: Assignment) {
    && (forall i, k, l :: 0 <= i < |p.workers| && 0 <= k < |p.vans| && 0 <= l < |p.vans| && k != l ==>
          !(a.assign(i, k) && a.assign(i, l)))
    && (forall k :: 0 <= k < |p.vans| ==>
          && Headcount(a, k, |p.workers|) <= 2
          && (a.active(k) <==> Headcount(a, k, |p.workers|) >= 1))
  }

  ghost predicate HourRules(p: Problem, a: Assignment)
    requires Sized(p)
  {
    && (forall i, k :: 0 <= i < |p.workers| && 0 <= k < |p.vans| && a.assign(i, k) ==>
          p.span[i].0 <= a.crewStart(k) && a.crewEnd(k) <= p.span[i].1 + Allowance(p, i))
    && (forall k :: 0 <= k < |p.vans| ==>
          && 0 <= a.crewStart(k) <= a.crewEnd(k) <= MINUTES_PER_DAY
          && p.vanWindow[k].0 <= a.crewStart(k) && a.crewEnd(k) <= p.vanWindow[k].1)
  }

  ghost predicate ServiceRules(p: Problem, a: Assignment) {
    forall j :: 0 <= j < |p.jobs| ==>
      && CrewsVisiting(a, j, |p.vans|) == (if a.served(j) then 1 else 0)
      && (p.jobs[j].id in p.locked ==> a.served(j))
      && (p.jobs[j].commitment.Confirmed? && !a.served(j) ==> a.released(j))
      && (!p.jobs[j].commitment.Confirmed? ==> !a.released(j))
  }

  ghost predicate FitnessRules(p: Problem, a: Assignment)
    requires Sized(p)
  {
    forall j, k :: 0 <= j < |p.jobs| && 0 <= k < |p.vans| && a.visit(j, k) ==>
      && a.active(k)
      && Headcount(a, k, |p.workers|) >= p.jobs[j].crewSize
      && (forall c :: c in p.jobs[j].requiredCertifications ==> HoldersAboard(p, a, k, c, |p.workers|) >= 1)
      && (forall i :: 0 <= i < |p.workers| && p.workers[i].id in p.pins[j] ==> a.assign(i, k))
  }

  ghost predicate CapacityRules(p: Problem, a: Assignment) {
    forall k :: 0 <= k < |p.vans| ==>
      && PaneLoad(p, a, k, |p.jobs|) <= p.vans[k].rackSlots
      && (forall j, m, part :: 0 <= j < |p.jobs| && m in p.jobs[j].materials && m.inStock && m.partCode == part ==>
            PartLoad(p, a, k, part, |p.jobs|) <= GetOr(p.vans[k].stock, part, 0))
  }

  /** Whether node `i` is on crew `k`'s tour rather than skipped. */
  predicate OnTour(a: Assignment, k: nat, i: nat) {
    if i == 0 then a.active(k) else a.visit(i - 1, k)
  }

  ghost predicate SomeArcFrom(p: Problem, a: Assignment, k: nat, i: nat) {
    exists j :: 0 <= j <= |p.jobs| && a.arc(k, i, j)
  }

  ghost predicate SomeArcTo(p: Problem, a: Assignment, k: nat, j: nat) {
    exists i :: 0 <= i <= |p.jobs| && a.arc(k, i, j)
  }

  /** Chosen arcs join nodes of the tour, one out of each and one into each. */
  ghost predicate Degrees(p: Problem, a: Assignment, k: nat) {
    && (forall i, j :: 0 <= i <= |p.jobs| && 0 <= j <= |p.jobs| && a.arc(k, i, j) ==>
          i != j && OnTour(a, k, i) && OnTour(a, k, j))
    && (forall i {:trigger SomeArcFrom(p, a, k, i)} :: 0 <= i <= |p.jobs| && OnTour(a, k, i) ==>
        SomeArcFrom(p, a, k, i))
    && (forall i {:trigger SomeArcTo(p, a, k, i)} :: 0 <= i <= |p.jobs| && OnTour(a, k, i) ==> SomeArcTo(p, a, k, i))
    && (forall i, j, l | 0 <= i <= |p.jobs| && 0 <= j <= |p.jobs| && 0 <= l <= |p.jobs| ::
          a.arc(k, i, j) && a.arc(k, i, l) ==> j == l)
    && (forall i, j, l | 0 <= i <= |p.jobs| && 0 <= j <= |p.jobs| && 0 <= l <= |p.jobs| ::
          a.arc(k, i, l) && a.arc(k, j, l) ==> i == j)
  }

  /** The circuit constraint: besides, the tour is a single cycle, so no part of it is closed. */
  ghost predicate Circuit(p: Problem, a: Assignment, k: nat) {
    && Degrees(p, a, k)
    && forall part: set<nat>, i :: ClosedPart(p, a, k, part) && 0 <= i <= |p.jobs| && OnTour(a, k, i) ==> i in part
  }

  /** A non-empty part of the tour that no chosen arc leaves. */
  ghost predicate ClosedPart(p: Problem, a: Assignment, k: nat, part: set<nat>) {
    && part != {}
    && (forall i :: i in part ==> i <= |p.jobs| && OnTour(a, k, i))
    && (forall i, j :: i in part && 0 <= j <= |p.jobs| && a.arc(k, i, j) ==> j in part)
  }

  /** The gap a chosen arc demands: out of the depot, back to it, or between two jobs. */
  predicate ArcLeavesRoom(p: Problem, a: Assignment, k: nat, i: nat, j: nat)
    requires Sized(p) && i <= |p.jobs| && j <= |p.jobs|
  {
    if i == 0 && j == 0 then true
    else if i == 0 then a.start(j - 1, k) >= a.crewStart(k) + p.matrix[0][j]
    else if j == 0 then a.crewEnd(k) >= a.start(i - 1, k) + p.jobs[i - 1].duration + p.matrix[i][0]
    else a.start(j - 1, k) >= a.start(i - 1, k) + p.jobs[i - 1].duration + p.matrix[i][j]
  }

  ghost predicate TravelRules(p: Problem, a: Assignment, k: nat)
    requires Sized(p)
  {
    forall i, j :: 0 <= i <= |p.jobs| && 0 <= j <= |p.jobs| && a.arc(k, i, j) ==> ArcLeavesRoom(p, a, k, i, j)
  }

  /** What choosing window `w` for job `j` on crew `k` commits to. */
  predicate SelectorMeans(p: Problem, a: Assignment, j: nat, k: nat, w: nat)
    requires j < |p.jobs| && w < |p.jobs[j].windows|
  {
    var window := p.jobs[j].windows[w];
    var opens := ClampToDay(window.start, DayStart(p.onDate));
    var closes := ClampToDay(window.end, DayStart(p.onDate));
    && opens.Some? && closes.Some? && closes.value > 0 && opens.value < MINUTES_PER_DAY
    && a.start(j, k) >= Max(opens.value, 0)
    && (window.hardness.Hard? || p.jobs[j].commitment.Confirmed? ==>
          a.start(j, k) + p.jobs[j].duration <= closes.value)
  }

  ghost predicate WindowRules(p: Problem, a: Assignment) {
    && (forall j, k :: 0 <= j < |p.jobs| && 0 <= k < |p.vans| ==> 0 <= a.start(j, k) <= MINUTES_PER_DAY)
    && (forall j, k :: 0 <= j < |p.jobs| && 0 <= k < |p.vans| && a.visit(j, k) ==>
          && a.crewStart(k) <= a.start(j, k)
          && a.start(j, k) + p.jobs[j].duration <= a.crewEnd(k)
          && (p.jobs[j].windows != [] && !a.released(j) ==>
                exists w :: 0 <= w < |p.jobs[j].windows| && a.selector(j, k, w)))
    && (forall j, k, w :: 0 <= j < |p.jobs| && 0 <= k < |p.vans| && 0 <= w < |p.jobs[j].windows|
                          && a.selector(j, k, w) ==>
          a.visit(j, k) && SelectorMeans(p, a, j, k, w))
    && (forall j, k, w, x | 0 <= j < |p.jobs| && 0 <= k < |p.vans|
                            && 0 <= w < |p.jobs[j].windows| && 0 <= x < |p.jobs[j].windows| ::
          a.selector(j, k, w) && a.selector(j, k, x) ==> w == x)
  }

  /** The model's clock reaches from a day before the day to the end of the day after it. */
  predicate InReach(window: Window, dayStart: Moment) {
    dayStart - MINUTES_PER_DAY <= window.start && window.end <= dayStart + 2 * MINUTES_PER_DAY
  }

  /** A window that touches the day and ends in time for the job, if it has to be done within it. */
  predicate HasRoom(job: Job, window: Window, dayStart: Moment, begins: Moment) {
    && window.start < dayStart + MINUTES_PER_DAY && dayStart < window.end && window.start <= begins
    && (window.hardness.Hard? || job.commitment.Confirmed? ==> begins + job.duration <= window.end)
  }

  /** A window may be chosen for a start exactly when the clock reaches both its ends and it has room for the job. */
  lemma SelectorIff(p: Problem, a: Assignment, j: nat, k: nat, w: nat)
    requires j < |p.jobs| && w < |p.jobs[j].windows| && 0 <= a.start(j, k)
    ensures var window, day := p.jobs[j].windows[w], DayStart(p.onDate);
            SelectorMeans(p, a, j, k, w) <==>
            InReach(window, day) && HasRoom(p.jobs[j], window, day, day + a.start(j, k))
  {
  }

  /** A window may be chosen for some start of the day exactly when the clock reaches both its ends and it has room
      for the job from when it opens, or the day begins. */
  lemma ChoosableIff(job: Job, window: Window, dayStart: Moment)
    ensures (exists m :: dayStart <= m <= dayStart + MINUTES_PER_DAY && HasRoom(job, window, dayStart, m)) <==>
            HasRoom(job, window, dayStart, Max(window.start, dayStart))
  {
  }

  /** A job is served in a window the clock reaches, so in none of more than three days, or its promise is given up. */
  lemma ServedInReach(p: Problem, a: Assignment, j: nat, k: nat)
    requires Feasible(p, a) && j < |p.jobs| && k < |p.vans| && a.visit(j, k) && !a.released(j)
    requires p.jobs[j].windows != []
    ensures exists w :: w in p.jobs[j].windows && InReach(w, DayStart(p.onDate))
                        && HasRoom(p.jobs[j], w, DayStart(p.onDate), DayStart(p.onDate) + a.start(j, k))
  {
    var w :| 0 <= w < |p.jobs[j].windows| && a.selector(j, k, w);
    SelectorIff(p, a, j, k, w);
    assert p.jobs[j].windows[w] in p.jobs[j].windows;
  }

  /** The assignments the solver may return. */
  ghost predicate Feasible(p: Problem, a: Assignment)
  {
    && Sized(p)
    && AssignmentRules(p, a)
    && HourRules(p, a)
    && ServiceRules(p, a)
    && FitnessRules(p, a)
    && CapacityRules(p, a)
    && (forall k :: 0 <= k < |p.vans| ==> Circuit(p, a, k) && TravelRules(p, a, k))
    && WindowRules(p, a)
  }

  // ---------------------------------------------------------------- extraction

  function Visited(a: Assignment, k: nat, n: nat): (r: seq<nat>)
    ensures forall x: nat :: x in r <==> x < n && a.visit(x, k)
    ensures Distinct(r)
  {
    if n == 0 then []
    else
      var rest := Visited(a, k, n - 1);
      if a.visit(n - 1, k) then rest + [n - 1] else rest
  }

  function ByStart(a: Assignment, k: nat): (nat, nat) -> bool {
    (x: nat, y: nat) => a.start(x, k) <= a.start(y, k)
  }

  /** The jobs of a crew in the order of their start times. */
  function Sequence(p: Problem, a: Assignment, k: nat): seq<nat> {
    Sort(Visited(a, k, |p.jobs|), ByStart(a, k))
  }

  lemma SequenceFacts(p: Problem, a: Assignment, k: nat)
    ensures InStartOrder(p, a, k, Sequence(p, a, k))
    ensures multiset(Sequence(p, a, k)) == multiset(Visited(a, k, |p.jobs|))
  {
    var v, s := Visited(a, k, |p.jobs|), Sequence(p, a, k);
    assert TotalPreorder(ByStart(a, k));
    SortKeeps(v, ByStart(a, k));
    SortSorts(v, ByStart(a, k));
    MultisetDistinct(v, s);
    forall i | 0 <= i < |s| ensures s[i] < |p.jobs| && a.visit(s[i], k) {
      assert s[i] in s;
    }
    forall i, j | 0 <= i < j < |s| ensures a.start(s[i], k) <= a.start(s[j], k) {
      assert ByStart(a, k)(s[i], s[j]);
    }
  }

  /** What the order of a tour rests on: one way in and out of each node, and room for every leg. */
  ghost predicate Tours(p: Problem, a: Assignment, k: nat) {
    Sized(p) && Degrees(p, a, k) && TravelRules(p, a, k)
  }

  /** `s` lists the jobs crew `k` visits, each once, in the order of their starts. */
  ghost predicate InStartOrder(p: Problem, a: Assignment, k: nat, s: seq<nat>) {
    && Distinct(s)
    && (forall x: nat :: x in s <==> x < |p.jobs| && a.visit(x, k))
    && (forall i :: 0 <= i < |s| ==> s[i] < |p.jobs| && a.visit(s[i], k))
    && (forall i, j :: 0 <= i < j < |s| ==> a.start(s[i], k) <= a.start(s[j], k))
  }

  /** Position `i` of the sequence is entered from position `i - 1`, the first from the depot. */
  predicate Linked(a: Assignment, k: nat, s: seq<nat>, i: nat)
    requires i < |s|
  {
    a.arc(k, if i == 0 then 0 else s[i - 1] + 1, s[i] + 1)
  }

  lemma OneWayOut(p: Problem, a: Assignment, k: nat, i: nat, j: nat, l: nat)
    requires Degrees(p, a, k) && i <= |p.jobs| && j <= |p.jobs| && l <= |p.jobs|
    requires a.arc(k, i, j) && a.arc(k, i, l)
    ensures j == l
  {
  }

  /** Something enters each visited job: the depot, or a job that starts strictly sooner. */
  lemma EnteredFromSooner(p: Problem, a: Assignment, k: nat, j: nat) returns (u: nat)
    requires Tours(p, a, k) && j < |p.jobs| && a.visit(j, k)
    ensures u <= |p.jobs| && a.arc(k, u, j + 1)
    ensures u > 0 ==> a.visit(u - 1, k) && a.start(u - 1, k) < a.start(j, k)
  {
    assert OnTour(a, k, j + 1);
    assert SomeArcTo(p, a, k, j + 1);
    u :| 0 <= u <= |p.jobs| && a.arc(k, u, j + 1);
    if u > 0 {
      assert OnTour(a, k, u) && ArcLeavesRoom(p, a, k, u, j + 1);
    }
  }

  /** Something leaves each node of the tour: for the depot, or for a job that starts strictly later. */
  lemma LeavesForLater(p: Problem, a: Assignment, k: nat, i: nat) returns (w: nat)
    requires Tours(p, a, k) && i <= |p.jobs| && OnTour(a, k, i)
    ensures w <= |p.jobs| && a.arc(k, i, w) && w != i && OnTour(a, k, w)
    ensures i > 0 && w > 0 ==> a.start(i - 1, k) < a.start(w - 1, k)
  {
    assert SomeArcFrom(p, a, k, i);
    w :| 0 <= w <= |p.jobs| && a.arc(k, i, w);
    if i > 0 && w > 0 {
      assert ArcLeavesRoom(p, a, k, i, w);
    }
  }

  lemma PlaceInOrder(p: Problem, a: Assignment, k: nat, s: seq<nat>, x: nat, i: nat) returns (h: nat)
    requires InStartOrder(p, a, k, s) && i < |s| && x < |p.jobs| && a.visit(x, k) && a.start(x, k) < a.start(s[i], k)
    ensures h < i && s[h] == x
  {
    assert x in s;
    h :| 0 <= h < |s| && s[h] == x;
  }

  /** The one way out of `u` leads to the position it is known to lead to. */
  lemma NextInLine(p: Problem, a: Assignment, k: nat, s: seq<nat>, u: nat, m: nat, i: nat)
    requires Degrees(p, a, k) && InStartOrder(p, a, k, s) && u <= |p.jobs| && m <= i < |s|
    requires a.arc(k, u, s[i] + 1) && (m < i ==> a.arc(k, u, s[m] + 1))
    ensures m == i
  {
    OneWayOut(p, a, k, u, s[m] + 1, s[i] + 1);
  }

  /** Sorting by start recovers the circuit's order, one position at a time: the node before `s[i]`
      starts strictly sooner, so it is among those already placed, and all but the last of these have
      their one way out taken. */
  lemma {:induction false} OrderIsTheCircuits(p: Problem, a: Assignment, k: nat, s: seq<nat>, i: nat)
    requires Tours(p, a, k) && InStartOrder(p, a, k, s) && i < |s|
    ensures Linked(a, k, s, i)
    decreases i
  {
    var u := EnteredFromSooner(p, a, k, s[i]);
    var m := 0;
    if u > 0 {
      var h := PlaceInOrder(p, a, k, s, u - 1, i);
      m := h + 1;
    }
    if m < i {
      OrderIsTheCircuits(p, a, k, s, m);
    }
    NextInLine(p, a, k, s, u, m, i);
  }

  lemma EndsAtTheDepot(p: Problem, a: Assignment, k: nat, s: seq<nat>)
    requires Tours(p, a, k) && InStartOrder(p, a, k, s) && a.active(k)
    ensures s != [] && a.arc(k, s[|s| - 1] + 1, 0)
  {
    var out := LeavesForLater(p, a, k, 0);
    assert out - 1 in s;
    var last := |s| - 1;
    var w := LeavesForLater(p, a, k, s[last] + 1);
    assert forall x: nat :: x + 1 == w ==> x in s;
  }

  /** The whole of it: a crew that goes out visits something, leaves the depot for the first job of
      the sequence, drives a chosen arc between consecutive ones, and comes home from the last. */
  lemma SequenceIsTheTour(p: Problem, a: Assignment, k: nat)
    requires Feasible(p, a) && k < |p.vans| && a.active(k)
    ensures var s := Sequence(p, a, k);
            && s != []
            && (forall i :: 0 <= i < |s| ==> Linked(a, k, s, i))
            && a.arc(k, s[|s| - 1] + 1, 0)
  {
    assert Circuit(p, a, k) && TravelRules(p, a, k);
    SequenceFacts(p, a, k);
    TourInOrder(p, a, k, Sequence(p, a, k));
  }

  lemma TourInOrder(p: Problem, a: Assignment, k: nat, s: seq<nat>)
    requires Tours(p, a, k) && InStartOrder(p, a, k, s) && a.active(k)
    ensures s != []
    ensures forall i :: 0 <= i < |s| ==> Linked(a, k, s, i)
    ensures a.arc(k, s[|s| - 1] + 1, 0)
  {
    EndsAtTheDepot(p, a, k, s);
    forall i | 0 <= i < |s| ensures Linked(a, k, s, i) {
      OrderIsTheCircuits(p, a, k, s, i);
    }
  }

  /** From any job of a part no arc leaves, driving on reaches the depot: starts only grow. */
  lemma {:induction false} ClosedPartHoldsTheDepot(p: Problem, a: Assignment, k: nat, part: set<nat>, i: nat)
    requires Tours(p, a, k) && ClosedPart(p, a, k, part) && i in part
    requires forall j :: 0 <= j < |p.jobs| ==> a.start(j, k) <= MINUTES_PER_DAY
    ensures 0 in part
    decreases if i == 0 then 0 else 1 + Max(0, MINUTES_PER_DAY - a.start(i - 1, k))
  {
    if i > 0 {
      var w := LeavesForLater(p, a, k, i);
      ClosedPartHoldsTheDepot(p, a, k, part, w);
    }
  }

  /** The single-cycle half of the circuit constraint is implied by the rest of the model: with one
      way in and out of every node and starts that grow along arcs, a part of the tour that no arc
      leaves is the whole tour. */
  lemma SingleCycleIsImplied(p: Problem, a: Assignment, k: nat)
    requires Tours(p, a, k)
    requires forall j :: 0 <= j < |p.jobs| ==> a.start(j, k) <= MINUTES_PER_DAY
    ensures Circuit(p, a, k)
  {
    forall part: set<nat>, i | ClosedPart(p, a, k, part) && 0 <= i <= |p.jobs| && OnTour(a, k, i) ensures i in part {
      var first :| first in part;
      ClosedPartHoldsTheDepot(p, a, k, part, first);
      if i > 0 {
        var s := Sequence(p, a, k);
        SequenceFacts(p, a, k);
        assert OnTour(a, k, 0);
        var at :| 0 <= at < |s| && s[at] == i - 1;
        ReachedFromTheDepot(p, a, k, part, s, at);
      }
    }
  }

  lemma {:induction false} ReachedFromTheDepot(p: Problem, a: Assignment, k: nat, part: set<nat>, s: seq<nat>, at: nat)
    requires Tours(p, a, k) && InStartOrder(p, a, k, s) && ClosedPart(p, a, k, part) && 0 in part && at < |s|
    ensures s[at] + 1 in part
  {
    OrderIsTheCircuits(p, a, k, s, at);
    if at > 0 {
      ReachedFromTheDepot(p, a, k, part, s, at - 1);
    }
  }

  function CrewIds(p: Problem, a: Assignment, k: nat, n: nat): (r: seq<WorkerId>)
    requires n <= |p.workers|
    ensures |r| == Headcount(a, k, n)
    ensures forall x :: x in r <==> exists i :: 0 <= i < n && a.assign(i, k) && p.workers[i].id == x
  {
    if n == 0 then []
    else
      var rest := CrewIds(p, a, k, n - 1);
      if a.assign(n - 1, k) then rest + [p.workers[n - 1].id] else rest
  }

  /** A crew is listed as the roster is. */
  lemma {:induction false} CrewIdsInOrder(p: Problem, a: Assignment, k: nat, n: nat)
    requires n <= |p.workers| && SortedBy(IdsOf(p.workers), StringLe)
    ensures SortedBy(CrewIds(p, a, k, n), StringLe)
  {
    if n > 0 {
      var rest := CrewIds(p, a, k, n - 1);
      CrewIdsInOrder(p, a, k, n - 1);
      forall h | 0 <= h < |rest| ensures StringLe(rest[h], p.workers[n - 1].id) {
        assert rest[h] in rest;
        var i :| 0 <= i < n - 1 && a.assign(i, k) && p.workers[i].id == rest[h];
        assert StringLe(IdsOf(p.workers)[i], IdsOf(p.workers)[n - 1]);
      }
    }
  }

  function JobsAt(p: Problem, s: seq<nat>): (r: seq<Job>)
    requires forall i :: 0 <= i < |s| ==> s[i] < |p.jobs|
    ensures |r| == |s| && forall i :: 0 <= i < |s| ==> r[i] == p.jobs[s[i]]
  {
    seq(|s|, i requires 0 <= i < |s| => p.jobs[s[i]])
  }

  function SequencedJobs(p: Problem, a: Assignment, k: nat): (r: seq<Job>)
    ensures |r| == |Sequence(p, a, k)|
  {
    SequenceFacts(p, a, k);
    JobsAt(p, Sequence(p, a, k))
  }

  function CrewIdOf(van: Van): string { "crew-" + van.id }

  function CrewRoute(p: Problem, a: Assignment, travel: Travel, k: nat): Route
    requires k < |p.vans|
  {
    Materialize(travel, CrewIdOf(p.vans[k]), CrewIds(p, a, k, |p.workers|), p.vans[k], p.onDate,
                SequencedJobs(p, a, k), DayStart(p.onDate) + a.crewStart(k))
  }

  predicate Emitted(p: Problem, a: Assignment, k: nat) {
    a.active(k) && Sequence(p, a, k) != [] && CrewIds(p, a, k, |p.workers|) != []
  }

  function EmittedCrews(p: Problem, a: Assignment, n: nat): (r: seq<nat>)
    ensures forall k: nat :: k in r <==> k < n && Emitted(p, a, k)
    ensures forall i, j :: 0 <= i < j < |r| ==> r[i] < r[j]
  {
    if n == 0 then []
    else
      var rest := EmittedCrews(p, a, n - 1);
      assert forall i :: 0 <= i < |rest| ==> rest[i] in rest;
      if Emitted(p, a, n - 1) then rest + [n - 1] else rest
  }

  function DayRoutes(p: Problem, a: Assignment, travel: Travel): (r: seq<Route>)
    ensures |r| == |EmittedCrews(p, a, |p.vans|)|
    ensures forall i :: 0 <= i < |r| ==> EmittedCrews(p, a, |p.vans|)[i] < |p.vans|
    ensures forall i :: 0 <= i < |r| ==> r[i] == CrewRoute(p, a, travel, EmittedCrews(p, a, |p.vans|)[i])
  {
    var crews := EmittedCrews(p, a, |p.vans|);
    assert forall i :: 0 <= i < |crews| ==> crews[i] in crews;
    seq(|crews|, i requires 0 <= i < |crews| => CrewRoute(p, a, travel, crews[i]))
  }

  /** What one day's planning reports. */
  datatype DayResult = DayResult(routes: seq<Route>, unserved: seq<JobId>, released: seq<JobId>)
}
