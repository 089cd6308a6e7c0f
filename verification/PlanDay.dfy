/** `plan_day` itself: the loops that pose the problem, the call to the solver, and the loops that
    read its answer back (scheduler/day_planner.py). */
module PlanDay {
  import opened Collections
  import opened Domain
  import opened FreeInterval
  import opened Routing
  import opened DayPlanner
  import Agreement

  // -------------------------------------------------------------------- probes

  const MIDDAY_PROBE := 720

  /** The minute a bucket the shift touches is sampled at. */
  predicate ProbesTouched(minute: int, shiftStart: int, shiftEnd: int) {
    exists b :: b in BUCKETS && shiftStart < b.1 && b.0 < shiftEnd && b.2 == minute
  }

  /** That, or midday for a shift that touches none. */
  predicate IsProbe(minute: int, shiftStart: int, shiftEnd: int) {
    || ProbesTouched(minute, shiftStart, shiftEnd)
    || (minute == MIDDAY_PROBE && forall b :: b in BUCKETS ==> !(shiftStart < b.1 && b.0 < shiftEnd))
  }

  method ProbeTimes(dayStart: Moment, shiftStart: int, shiftEnd: int, forced: Option<int>) returns (probes: seq<Moment>)
    ensures probes != []
    ensures forced.Some? ==> probes == [dayStart + forced.value]
    ensures forced.None? ==> forall b :: b in BUCKETS && shiftStart < b.1 && b.0 < shiftEnd ==> dayStart + b.2 in probes
    ensures forced.None? ==> forall t :: t in probes ==> IsProbe(t - dayStart, shiftStart, shiftEnd)
  {
    if forced.Some? {
      return [dayStart + forced.value];
    }
    probes := [];
    for i := 0 to |BUCKETS|
      invariant forall b :: b in BUCKETS[..i] && shiftStart < b.1 && b.0 < shiftEnd ==> dayStart + b.2 in probes
      invariant forall t :: t in probes ==> ProbesTouched(t - dayStart, shiftStart, shiftEnd)
      invariant probes == [] ==> forall b :: b in BUCKETS[..i] ==> !(shiftStart < b.1 && b.0 < shiftEnd)
    {
      var (lo, hi, probe) := BUCKETS[i];
      if shiftStart < hi && lo < shiftEnd {
        probes := probes + [dayStart + probe];
      }
    }
    if probes == [] {
      probes := [dayStart + MIDDAY_PROBE];
    }
  }

  method SlowestProbe(travel: Travel, from: Location, to: Location, probes: seq<Moment>) returns (worst: nat)
    ensures worst == WorstLeg(travel, from, to, probes)
  {
    worst := 0;
    for i := 0 to |probes|
      invariant worst == WorstLeg(travel, from, to, probes[..i])
    {
      assert probes[..i + 1][..i] == probes[..i];
      var leg := travel(from, to, probes[i]);
      worst := if worst < leg.minutes then leg.minutes else worst;
    }
    assert probes[..|probes|] == probes;
  }

  method BuildMatrix(travel: Travel, nodes: seq<Location>, probes: seq<Moment>) returns (matrix: seq<seq<nat>>)
    ensures |matrix| == |nodes|
    ensures forall i :: 0 <= i < |nodes| ==> |matrix[i]| == |nodes|
    ensures forall i, j :: 0 <= i < |nodes| && 0 <= j < |nodes| && i != j ==>
              matrix[i][j] == WorstLeg(travel, nodes[i], nodes[j], probes)
  {
    matrix := [];
    for i := 0 to |nodes|
      invariant |matrix| == i
      invariant forall x :: 0 <= x < i ==> |matrix[x]| == |nodes|
      invariant forall x, y :: 0 <= x < i && 0 <= y < |nodes| && x != y ==>
                  matrix[x][y] == WorstLeg(travel, nodes[x], nodes[y], probes)
    {
      var row: seq<nat> := [];
      for j := 0 to |nodes|
        invariant |row| == j
        invariant forall y :: 0 <= y < j && i != y ==> row[y] == WorstLeg(travel, nodes[i], nodes[y], probes)
      {
        var worst: nat := 0;
        if i != j {
          worst := SlowestProbe(travel, nodes[i], nodes[j], probes);
        }
        row := row + [worst];
      }
      matrix := matrix + [row];
    }
  }

  // ----------------------------------------------------------------- resources

  lemma SortedSnoc(s: seq<string>, x: string, keys: seq<string>, i: nat)
    requires SortedBy(keys, StringLe) && Distinct(keys) && i < |keys| && keys[i] == x
    requires SortedBy(s, StringLe) && Distinct(s) && forall y :: y in s ==> y in keys[..i]
    ensures SortedBy(s + [x], StringLe) && Distinct(s + [x]) && forall y :: y in s + [x] ==> y in keys[..i + 1]
  {
    forall h | 0 <= h < |s| ensures StringLe(s[h], x) && s[h] != x {
      assert s[h] in keys[..i];
    }
  }

  /** What has been rostered of the first `i` workers by id. */
  ghost predicate RosteredUpTo(
    world: World, onDate: Day, keys: seq<WorkerId>, i: nat, workers: seq<Worker>, span: seq<Interval>,
    extension: seq<Option<Moment>>)
    requires i <= |keys|
  {
    && |span| == |extension| == |workers|
    && SortedBy(IdsOf(workers), StringLe) && Distinct(IdsOf(workers))
    && (forall x :: x in IdsOf(workers) ==> x in keys[..i])
    && (forall h :: 0 <= h < |workers| ==> RosteredAs(world, onDate, workers[h], span[h], extension[h]))
    && (forall id :: id in keys[..i] && SomeStretch(world, onDate, id) ==> id in IdsOf(workers))
  }

  ghost predicate RosteredAs(world: World, onDate: Day, w: Worker, span: Interval, extension: Option<Moment>) {
    && w.id in world.workers && world.workers[w.id] == w
    && Usable(world, onDate, w, span)
    && extension == Get(world.shiftExtensions, (w.id, onDate))
  }

  ghost predicate SomeStretch(world: World, onDate: Day, id: WorkerId) {
    id in world.workers && exists s :: Usable(world, onDate, world.workers[id], s)
  }

  lemma NextKey(keys: seq<WorkerId>, i: nat)
    requires i < |keys|
    ensures keys[..i + 1] == keys[..i] + [keys[i]]
  {
  }

  lemma NoStretch(world: World, onDate: Day, id: WorkerId)
    requires id in world.workers
    requires var w := world.workers[id];
             var hours := HoursFor(w, Weekday(onDate));
             hours.None? || IsLargestFree(WorkerOutages(world, w.id), DayStart(onDate),
                                          (hours.value.start, hours.value.end), None)
    ensures !SomeStretch(world, onDate, id)
  {
    var w := world.workers[id];
    forall s ensures !Usable(world, onDate, w, s) {
      if HoursFor(w, Weekday(onDate)).Some? {
        var hours := HoursFor(w, Weekday(onDate)).value;
        assert !Free(WorkerOutages(world, w.id), DayStart(onDate), (hours.start, hours.end), s.0, s.1);
      }
    }
  }

  lemma RosterSkips(
    world: World, onDate: Day, keys: seq<WorkerId>, i: nat, workers: seq<Worker>, span: seq<Interval>,
    extension: seq<Option<Moment>>)
    requires i < |keys| && RosteredUpTo(world, onDate, keys, i, workers, span, extension)
    requires !SomeStretch(world, onDate, keys[i])
    ensures RosteredUpTo(world, onDate, keys, i + 1, workers, span, extension)
  {
    NextKey(keys, i);
  }

  lemma RosterAdds(
    world: World, onDate: Day, keys: seq<WorkerId>, i: nat, workers: seq<Worker>, span: seq<Interval>,
    extension: seq<Option<Moment>>, w: Worker, stretch: Interval, agreed: Option<Moment>)
    requires i < |keys| && SortedBy(keys, StringLe) && Distinct(keys)
    requires RosteredUpTo(world, onDate, keys, i, workers, span, extension)
    requires w.id == keys[i] && RosteredAs(world, onDate, w, stretch, agreed)
    ensures RosteredUpTo(world, onDate, keys, i + 1, workers + [w], span + [stretch], extension + [agreed])
  {
    NextKey(keys, i);
    SortedSnoc(IdsOf(workers), w.id, keys, i);
    assert IdsOf(workers + [w]) == IdsOf(workers) + [w.id];
    assert forall id :: id in IdsOf(workers) ==> id in IdsOf(workers) + [w.id];
  }

  method RosteredWorkers(world: World, onDate: Day)
    returns (workers: seq<Worker>, span: seq<Interval>, extension: seq<Option<Moment>>)
    requires WellKeyed(world)
    ensures Rostered(world, onDate, workers, span, extension)
  {
    workers, span, extension := [], [], [];
    var keys := SortedKeys(world.workers.Keys);
    for i := 0 to |keys|
      invariant RosteredUpTo(world, onDate, keys, i, workers, span, extension)
    {
      assert keys[i] in keys && keys[i] in world.workers.Keys;
      var worker := world.workers[keys[i]];
      var hours := HoursFor(worker, Weekday(onDate));
      if hours.None? {
        NoStretch(world, onDate, keys[i]);
        RosterSkips(world, onDate, keys, i, workers, span, extension);
        continue;
      }
      var shift := (hours.value.start, hours.value.end);
      var usable := LargestFreeInterval(WorkerOutages(world, worker.id), DayStart(onDate), shift);
      if usable.None? {
        NoStretch(world, onDate, keys[i]);
        RosterSkips(world, onDate, keys, i, workers, span, extension);
        continue;
      }
      var agreed := Get(world.shiftExtensions, (worker.id, onDate));
      RosterAdds(world, onDate, keys, i, workers, span, extension, worker, usable.value, agreed);
      workers := workers + [worker];
      span := span + [usable.value];
      extension := extension + [agreed];
    }
    RosterIsWhole(world, onDate, keys, workers, span, extension);
  }

  lemma RosterIsWhole(
    world: World, onDate: Day, keys: seq<WorkerId>, workers: seq<Worker>, span: seq<Interval>,
    extension: seq<Option<Moment>>)
    requires RosteredUpTo(world, onDate, keys, |keys|, workers, span, extension)
    requires forall id :: id in world.workers ==> id in keys
    ensures Rostered(world, onDate, workers, span, extension)
  {
    assert keys[..|keys|] == keys;
    forall h | 0 <= h < |workers| ensures RosteredAs(world, onDate, workers[h], span[h], extension[h]) {}
    forall id, s | id in world.workers && Usable(world, onDate, world.workers[id], s) ensures id in IdsOf(workers) {
      assert SomeStretch(world, onDate, id);
    }
  }

  method UsableVans(world: World, onDate: Day) returns (vans: seq<Van>, window: seq<Interval>)
    requires WellKeyed(world)
    ensures Garaged(world, onDate, vans, window)
  {
    vans, window := [], [];
    var keys := SortedKeys(world.vans.Keys);
    for i := 0 to |keys|
      invariant |window| == |vans|
      invariant SortedBy(VanIdsOf(vans), StringLe) && Distinct(VanIdsOf(vans))
      invariant forall x :: x in VanIdsOf(vans) ==> x in keys[..i]
      invariant forall h :: 0 <= h < |vans| ==>
        && vans[h].id in world.vans && world.vans[vans[h].id] == vans[h] && UsableVan(world, onDate, vans[h], window[h])
      invariant forall id, s :: id in keys[..i] && id in world.vans && UsableVan(world, onDate, world.vans[id], s) ==>
        id in VanIdsOf(vans)
    {
      assert keys[i] in keys && keys[i] in world.vans.Keys;
      var van := world.vans[keys[i]];
      assert keys[..i + 1] == keys[..i] + [keys[i]];
      var usable := LargestFreeInterval(VanOutages(world, van.id), DayStart(onDate), (0, MINUTES_PER_DAY));
      if usable.None? {
        assert forall s :: !UsableVan(world, onDate, van, s) by {
          forall s ensures !UsableVan(world, onDate, van, s) {
            assert !Free(VanOutages(world, van.id), DayStart(onDate), (0, MINUTES_PER_DAY), s.0, s.1);
          }
        }
        continue;
      }
      SortedSnoc(VanIdsOf(vans), van.id, keys, i);
      assert VanIdsOf(vans + [van]) == VanIdsOf(vans) + [van.id];
      vans := vans + [van];
      window := window + [usable.value];
    }
    assert keys[..|keys|] == keys;
  }

  /** Sorts the candidates into those that enter the model and those reported at once: known, active
      jobs whose parts come later or whose window is another day's. */
  method Triage(world: World, onDate: Day, ids: seq<JobId>) returns (eligible: seq<JobId>, early: seq<JobId>)
    ensures eligible == Eligible(world, onDate, ids)
    ensures forall x :: x in early <==>
              x in ids && x in world.jobs && IsActive(world.jobs[x]) && !IsCandidate(world, onDate, x)
    ensures Distinct(ids) ==> Distinct(early)
  {
    eligible, early := [], [];
    for i := 0 to |ids|
      invariant eligible == Eligible(world, onDate, ids[..i])
      invariant forall x :: x in early <==>
        x in ids[..i] && x in world.jobs && IsActive(world.jobs[x]) && !IsCandidate(world, onDate, x)
      invariant Distinct(ids) ==> Distinct(early)
    {
      var id := ids[i];
      assert ids[..i + 1] == ids[..i] + [id] && ids[..i + 1][..i] == ids[..i];
      if id !in world.jobs || !IsActive(world.jobs[id]) {
        continue;
      }
      var job := world.jobs[id];
      MaterialDayIff(job, onDate);
      if EarliestMaterialDay(job) > onDate {
        early := early + [id];
        continue;
      }
      if !WindowsTouchDay(job, DayStart(onDate)) {
        early := early + [id];
        continue;
      }
      eligible := eligible + [id];
    }
    assert ids[..|ids|] == ids;
  }

  /** The earliest start and the latest end among the usable stretches. */
  method Shift(span: seq<Interval>) returns (earliest: int, latest: int)
    ensures forall i :: 0 <= i < |span| ==> earliest <= span[i].0 && span[i].1 <= latest
    ensures span != [] ==> (exists i :: 0 <= i < |span| && span[i].0 == earliest)
    ensures span != [] ==> (exists i :: 0 <= i < |span| && span[i].1 == latest)
  {
    earliest, latest := 0, 0;
    if span != [] {
      earliest, latest := span[0].0, span[0].1;
      for i := 1 to |span|
        invariant forall h :: 0 <= h < i ==> earliest <= span[h].0 && span[h].1 <= latest
        invariant exists h :: 0 <= h < i && span[h].0 == earliest
        invariant exists h :: 0 <= h < i && span[h].1 == latest
      {
        earliest, latest := Min(earliest, span[i].0), Max(latest, span[i].1);
      }
    }
  }

  lemma MatrixIsPosed(travel: Travel, probes: seq<Moment>, p: Problem, nodes: seq<Location>)
    requires p.vans != [] && |nodes| == |p.jobs| + 1 && nodes[0] == p.vans[0].homeDepot
    requires forall j :: 0 <= j < |p.jobs| ==> nodes[j + 1] == p.jobs[j].location
    requires |p.matrix| == |nodes| && forall i :: 0 <= i < |nodes| ==> |p.matrix[i]| == |nodes|
    requires forall i, j :: 0 <= i < |nodes| && 0 <= j < |nodes| && i != j ==>
               p.matrix[i][j] == WorstLeg(travel, nodes[i], nodes[j], probes)
    ensures MatrixPosed(travel, probes, p)
  {
    forall i | 0 <= i < |nodes| ensures nodes[i] == Node(p, i) {
      if i > 0 { assert nodes[(i - 1) + 1] == p.jobs[i - 1].location; }
    }
  }

  lemma ProbesArePosed(params: Params, probes: seq<Moment>, p: Problem, earliest: int, latest: int)
    requires probes != []
    requires params.travelBucket.None? ==> forall b ::
               b in BUCKETS && earliest < b.1 && b.0 < latest + p.overtime ==> DayStart(p.onDate) + b.2 in probes
    requires forall i :: 0 <= i < |p.span| ==> earliest <= p.span[i].0 && p.span[i].1 <= latest
    ensures ProbesPosed(params, probes, p)
  {
  }

  function JobsNamed(world: World, ids: seq<JobId>): (r: seq<Job>)
    requires forall x :: x in ids ==> x in world.jobs
    ensures |r| == |ids| && forall i :: 0 <= i < |ids| ==> r[i] == world.jobs[ids[i]]
  {
    seq(|ids|, i requires 0 <= i < |ids| => assert ids[i] in ids; world.jobs[ids[i]])
  }

  /** The depot, then the jobs. */
  function Nodes(depot: Location, jobs: seq<Job>): (r: seq<Location>)
    ensures |r| == |jobs| + 1 && r[0] == depot && forall j :: 0 <= j < |jobs| ==> r[j + 1] == jobs[j].location
  {
    [depot] + seq(|jobs|, i requires 0 <= i < |jobs| => jobs[i].location)
  }

  function PinsOf(
    world: World, onDate: Day, jobs: seq<Job>, pinned: map<JobId, seq<WorkerId>>, available: set<WorkerId>)
    : (r: seq<set<WorkerId>>)
    ensures |r| == |jobs| && forall j :: 0 <= j < |jobs| ==>
              r[j] == PinsFor(world, onDate, jobs[j].id, pinned, available)
  {
    seq(|jobs|, i requires 0 <= i < |jobs| => PinsFor(world, onDate, jobs[i].id, pinned, available))
  }

  method PoseProblem(
    world: World, travel: Travel, onDate: Day, eligible: seq<JobId>, pinned: map<JobId, seq<WorkerId>>,
    locked: set<JobId>, params: Params)
    returns (p: Problem, probes: seq<Moment>)
    requires WellKeyed(world) && forall x :: x in eligible ==> x in world.jobs
    ensures p.onDate == onDate && p.locked == locked
    ensures p.overtime == (if params.allowOvertime then params.overtimeMinutes else 0)
    ensures |p.jobs| == |eligible| && forall j :: 0 <= j < |p.jobs| ==> p.jobs[j] == world.jobs[eligible[j]]
    ensures WorkersPosed(world, onDate, p) && VansPosed(world, onDate, p)
    ensures MatrixPosed(travel, probes, p) && ProbesPosed(params, probes, p) && PinsPosed(world, onDate, pinned, p)
  {
    var jobs := JobsNamed(world, eligible);
    var workers, span, extension := RosteredWorkers(world, onDate);
    var vans, window := UsableVans(world, onDate);
    var overtime := if params.allowOvertime then params.overtimeMinutes else 0;
    var earliest, latest := Shift(span);
    probes := ProbeTimes(DayStart(onDate), earliest, latest + overtime, params.travelBucket);
    var matrix: seq<seq<nat>> := [];
    if vans != [] {
      matrix := BuildMatrix(travel, Nodes(vans[0].homeDepot, jobs), probes);
    }
    var pins := PinsOf(world, onDate, jobs, pinned, SetOf(IdsOf(workers)));
    p := Problem(onDate, jobs, workers, span, extension, vans, window, matrix, overtime, locked, pins);
    ProbesArePosed(params, probes, p, earliest, latest);
    if vans != [] {
      MatrixIsPosed(travel, probes, p, Nodes(vans[0].homeDepot, jobs));
    }
  }

  // ---------------------------------------------------------------- extraction

  method CrewMembers(p: Problem, a: Assignment, k: nat) returns (ids: seq<WorkerId>)
    ensures ids == CrewIds(p, a, k, |p.workers|)
  {
    ids := [];
    for i := 0 to |p.workers|
      invariant ids == CrewIds(p, a, k, i)
    {
      if a.assign(i, k) {
        ids := ids + [p.workers[i].id];
      }
    }
  }

  lemma SequenceReadsBack(world: World, p: Problem, a: Assignment, k: nat, ids: seq<JobId>)
    requires k < |p.vans| && Agreement.Filed(world, p) && |ids| == |Sequence(p, a, k)|
    requires forall i :: 0 <= i < |ids| ==> Sequence(p, a, k)[i] < |p.jobs| && ids[i] == p.jobs[Sequence(p, a, k)[i]].id
    ensures Filed(world, ids) && JobsOf(world, ids) == SequencedJobs(p, a, k)
  {
  }

  method SequenceIds(world: World, p: Problem, a: Assignment, k: nat, sequence: seq<nat>) returns (ids: seq<JobId>)
    requires k < |p.vans| && Agreement.Filed(world, p) && sequence == Sequence(p, a, k)
    ensures Filed(world, ids) && JobsOf(world, ids) == SequencedJobs(p, a, k)
  {
    SequenceFacts(p, a, k);
    ids := seq(|sequence|, i requires 0 <= i < |sequence| => p.jobs[sequence[i]].id);
    SequenceReadsBack(world, p, a, k, ids);
  }

  method MaterializeCrew(
    world: World, travel: Travel, van: Van, crew: seq<WorkerId>, date: Day, ids: seq<JobId>, ghost jobs: seq<Job>,
    clock: Moment)
    returns (route: Route)
    requires van.id in world.vans && world.vans[van.id] == van
    requires Filed(world, ids) && JobsOf(world, ids) == jobs
    ensures route == Materialize(travel, CrewIdOf(van), crew, van, date, jobs, clock)
  {
    route := MaterializeRoute(world, travel, CrewIdOf(van), crew, van.id, date, ids, clock);
  }

  /** One crew's route, unless the crew stays in. */
  method ReadCrew(world: World, travel: Travel, p: Problem, a: Assignment, k: nat) returns (route: Option<Route>)
    requires k < |p.vans| && Agreement.Filed(world, p)
    ensures route.Some? <==> Emitted(p, a, k)
    ensures route.Some? ==> route.value == CrewRoute(p, a, travel, k)
  {
    if !a.active(k) {
      return None;
    }
    var crew := CrewMembers(p, a, k);
    var sequence := Sequence(p, a, k);
    if sequence == [] || crew == [] {
      return None;
    }
    var ids := SequenceIds(world, p, a, k, sequence);
    var r := MaterializeCrew(world, travel, p.vans[k], crew, p.onDate, ids, SequencedJobs(p, a, k),
                             DayStart(p.onDate) + a.crewStart(k));
    return Some(r);
  }

  ghost predicate ScheduledAre(scheduled: set<JobId>, routes: seq<Route>) {
    forall x :: x in scheduled <==> OnSomeRoute(routes, x)
  }

  lemma ScheduledAreSnoc(scheduled: set<JobId>, routes: seq<Route>, route: Route)
    requires ScheduledAre(scheduled, routes)
    ensures ScheduledAre(scheduled + SetOf(StopJobs(route.stops)), routes + [route])
  {
    var more := scheduled + SetOf(StopJobs(route.stops));
    assert (routes + [route])[..|routes|] == routes;
    forall x ensures x in more <==> OnSomeRoute(routes + [route], x) {
      OnSomeRouteSnoc(routes + [route], x);
    }
  }

  predicate RoutesOf(p: Problem, a: Assignment, travel: Travel, crews: seq<nat>, routes: seq<Route>) {
    |routes| == |crews| &&
    forall i :: 0 <= i < |crews| ==> crews[i] < |p.vans| && routes[i] == CrewRoute(p, a, travel, crews[i])
  }

  lemma RoutesOfSnoc(p: Problem, a: Assignment, travel: Travel, crews: seq<nat>, routes: seq<Route>, k: nat)
    requires RoutesOf(p, a, travel, crews, routes) && k < |p.vans|
    ensures RoutesOf(p, a, travel, crews + [k], routes + [CrewRoute(p, a, travel, k)])
  {
  }

  lemma RoutesOfTheDay(p: Problem, a: Assignment, travel: Travel, crews: seq<nat>, routes: seq<Route>)
    requires RoutesOf(p, a, travel, crews, routes) && crews == EmittedCrews(p, a, |p.vans|)
    ensures routes == DayRoutes(p, a, travel)
  {
  }

  /** What has been read of the first `k` crews. */
  ghost predicate ReadUpTo(
    p: Problem, a: Assignment, travel: Travel, k: nat, routes: seq<Route>, scheduled: set<JobId>)
  {
    RoutesOf(p, a, travel, EmittedCrews(p, a, k), routes) && ScheduledAre(scheduled, routes)
  }

  lemma ReadMore(p: Problem, a: Assignment, travel: Travel, k: nat, routes: seq<Route>, scheduled: set<JobId>)
    requires k < |p.vans| && ReadUpTo(p, a, travel, k, routes, scheduled)
    ensures var route := CrewRoute(p, a, travel, k);
            if Emitted(p, a, k) then
              ReadUpTo(p, a, travel, k + 1, routes + [route], scheduled + SetOf(StopJobs(route.stops)))
            else ReadUpTo(p, a, travel, k + 1, routes, scheduled)
  {
    var route := CrewRoute(p, a, travel, k);
    if Emitted(p, a, k) {
      ScheduledAreSnoc(scheduled, routes, route);
      RoutesOfSnoc(p, a, travel, EmittedCrews(p, a, k), routes, k);
    }
  }

  method ReadRoutes(world: World, travel: Travel, p: Problem, a: Assignment)
    returns (routes: seq<Route>, scheduled: set<JobId>)
    requires Agreement.Filed(world, p)
    ensures routes == DayRoutes(p, a, travel)
    ensures ScheduledAre(scheduled, routes)
  {
    routes, scheduled := [], {};
    for k := 0 to |p.vans|
      invariant ReadUpTo(p, a, travel, k, routes, scheduled)
    {
      var route := ReadCrew(world, travel, p, a, k);
      ReadMore(p, a, travel, k, routes, scheduled);
      if route.Some? {
        routes := routes + [route.value];
        scheduled := scheduled + SetOf(StopJobs(route.value.stops));
      }
    }
    RoutesOfTheDay(p, a, travel, EmittedCrews(p, a, |p.vans|), routes);
  }

  /** Known, active candidates: the ones a day answers for. */
  predicate AnswersFor(world: World, ids: seq<JobId>, x: JobId) {
    x in ids && x in world.jobs && IsActive(world.jobs[x])
  }

  /** The day accounts for each of its candidates once: in a single stop, or in the unserved list. */
  ghost predicate Accounted(world: World, ids: seq<JobId>, routes: seq<Route>, unserved: seq<JobId>) {
    && Distinct(RoutedJobs(routes) + unserved)
    && (forall x :: x in RoutedJobs(routes) || x in unserved <==> AnswersFor(world, ids, x))
  }

  lemma CrewRouteJobs(world: World, travel: Travel, p: Problem, a: Assignment, k: nat)
    requires Agreement.Filed(world, p) && k < |p.vans|
    requires forall i, j :: 0 <= i < j < |p.jobs| ==> p.jobs[i].id != p.jobs[j].id
    ensures var route := CrewRoute(p, a, travel, k);
            && Agreement.Carries(p, a, k, route) && Distinct(StopJobs(route.stops))
            && forall x :: x in StopJobs(route.stops) ==> exists j :: 0 <= j < |p.jobs| && p.jobs[j].id == x
  {
    var route := CrewRoute(p, a, travel, k);
    Agreement.EmittedRoutesCarry(p, a, travel, k);
    Agreement.RouteJobsDistinct(world, p, a, k, route);
    forall x | x in StopJobs(route.stops) ensures exists j :: 0 <= j < |p.jobs| && p.jobs[j].id == x {
      var h :| 0 <= h < |route.stops| && route.stops[h].jobId == x;
      Agreement.StopJobFiled(world, p, a, k, route, h);
    }
  }

  lemma DayRoutesJobs(
    world: World, travel: Travel, p: Problem, a: Assignment)
    requires Agreement.Filed(world, p) && Sized(p) && ServiceRules(p, a)
    requires forall i, j :: 0 <= i < j < |p.jobs| ==> p.jobs[i].id != p.jobs[j].id
    ensures Distinct(RoutedJobs(DayRoutes(p, a, travel)))
    ensures forall x :: x in RoutedJobs(DayRoutes(p, a, travel)) ==> exists j :: 0 <= j < |p.jobs| && p.jobs[j].id == x
  {
    var routes, crews := DayRoutes(p, a, travel), EmittedCrews(p, a, |p.vans|);
    forall i | 0 <= i < |routes|
      ensures Agreement.Carries(p, a, crews[i], routes[i]) && Distinct(StopJobs(routes[i].stops))
      ensures forall x :: x in StopJobs(routes[i].stops) ==> exists j :: 0 <= j < |p.jobs| && p.jobs[j].id == x
    {
      assert crews[i] in crews;
      CrewRouteJobs(world, travel, p, a, crews[i]);
    }
    forall i, j, x | 0 <= i < j < |routes| && x in StopJobs(routes[i].stops) ensures x !in StopJobs(routes[j].stops) {
      Agreement.RoutesShareNoJob(world, p, a, crews[i], crews[j], routes[i], routes[j], x);
    }
    Agreement.RoutedJobsDistinct(routes);
    forall x | x in RoutedJobs(routes) ensures exists j :: 0 <= j < |p.jobs| && p.jobs[j].id == x {
      RoutedJobsMembers(routes, x);
    }
  }

  /** A job the crew visits is in the routes: a crew with a visit is active, so it has a member. */
  lemma VisitedIsRouted(p: Problem, a: Assignment, travel: Travel, j: nat, k: nat)
    requires Feasible(p, a) && j < |p.jobs| && k < |p.vans| && a.visit(j, k)
    ensures p.jobs[j].id in RoutedJobs(DayRoutes(p, a, travel))
  {
    var routes, crews := DayRoutes(p, a, travel), EmittedCrews(p, a, |p.vans|);
    VisitedIsOnTheRoute(p, a, travel, j, k);
    assert k in crews;
    var i :| 0 <= i < |crews| && crews[i] == k;
    RoutedJobsMembers(routes, p.jobs[j].id);
  }

  lemma VisitedIsOnTheRoute(p: Problem, a: Assignment, travel: Travel, j: nat, k: nat)
    requires Feasible(p, a) && j < |p.jobs| && k < |p.vans| && a.visit(j, k)
    ensures Emitted(p, a, k) && p.jobs[j].id in StopJobs(CrewRoute(p, a, travel, k).stops)
  {
    SequenceFacts(p, a, k);
    assert j in Sequence(p, a, k);
    var h :| 0 <= h < |Sequence(p, a, k)| && Sequence(p, a, k)[h] == j;
    Agreement.EmittedRoutesCarry(p, a, travel, k);
    assert StopJobs(CrewRoute(p, a, travel, k).stops)[h] == p.jobs[j].id;
  }

  lemma {:induction false} SomeCrewVisits(a: Assignment, j: nat, n: nat) returns (k: nat)
    requires CrewsVisiting(a, j, n) >= 1
    ensures k < n && a.visit(j, k)
    decreases n
  {
    if a.visit(j, n - 1) {
      k := n - 1;
    } else {
      k := SomeCrewVisits(a, j, n - 1);
    }
  }

  /** A locked job is served: whatever the solver returns, it is in a route. */
  lemma LockedIsRouted(p: Problem, a: Assignment, travel: Travel, j: nat)
    requires Feasible(p, a) && j < |p.jobs| && p.jobs[j].id in p.locked
    ensures p.jobs[j].id in RoutedJobs(DayRoutes(p, a, travel))
  {
    var k := SomeCrewVisits(a, j, |p.vans|);
    VisitedIsRouted(p, a, travel, j, k);
  }

  /** Who must be aboard for a job that day: whoever claimed its overtime, and whoever the caller pinned. */
  predicate MustRide(world: World, onDate: Day, pinned: map<JobId, seq<WorkerId>>, id: JobId, w: WorkerId) {
    || w in GetOr(pinned, id, [])
    || (id in world.overtimeOffers && world.overtimeOffers[id].claimedBy == Some(w)
        && world.overtimeOffers[id].onDate == onDate)
  }

  /** A job's pins are exactly those who must ride and are at work that day. */
  lemma PinsAre(
    world: World, onDate: Day, pinned: map<JobId, seq<WorkerId>>, p: Problem, j: nat, w: WorkerId)
    requires PinsPosed(world, onDate, pinned, p) && j < |p.jobs|
    ensures w in p.pins[j] <==> w in IdsOf(p.workers) && MustRide(world, onDate, pinned, p.jobs[j].id, w)
  {
  }

  /** Whoever must be aboard for a job, and is at work that day, is on the route that serves it. */
  lemma PinsAreHonoured(
    world: World, travel: Travel, onDate: Day, pinned: map<JobId, seq<WorkerId>>, p: Problem, a: Assignment,
    i: nat, id: JobId, w: WorkerId)
    requires Feasible(p, a) && PinsPosed(world, onDate, pinned, p) && Agreement.Filed(world, p)
    requires i < |DayRoutes(p, a, travel)| && id in StopJobs(DayRoutes(p, a, travel)[i].stops)
    requires w in IdsOf(p.workers) && MustRide(world, onDate, pinned, id, w)
    ensures w in DayRoutes(p, a, travel)[i].workerIds
  {
    var route, k := DayRoutes(p, a, travel)[i], EmittedCrews(p, a, |p.vans|)[i];
    assert k in EmittedCrews(p, a, |p.vans|);
    var h :| 0 <= h < |route.stops| && route.stops[h].jobId == id;
    Agreement.EmittedRoutesCarry(p, a, travel, k);
    Agreement.StopJobFiled(world, p, a, k, route, h);
    var j := Sequence(p, a, k)[h];
    assert p.jobs[j].id == id;
    var x :| 0 <= x < |p.workers| && p.workers[x].id == w;
    PinsAre(world, onDate, pinned, p, j, w);
    assert w in p.pins[j] && a.assign(x, k);
  }

  /** The promises the solver released, in job order. */
  function Released(p: Problem, a: Assignment, n: nat): (r: seq<JobId>)
    requires n <= |p.jobs|
    ensures forall x :: x in r <==>
              exists j :: 0 <= j < n && p.jobs[j].id == x && p.jobs[j].commitment.Confirmed? && a.released(j)
  {
    if n == 0 then []
    else
      var rest := Released(p, a, n - 1);
      if p.jobs[n - 1].commitment.Confirmed? && a.released(n - 1) then rest + [p.jobs[n - 1].id] else rest
  }

  /** They are listed as the jobs are. */
  lemma {:induction false} ReleasedInTurn(p: Problem, a: Assignment, n: nat, x: nat, y: nat) returns (i: nat, j: nat)
    requires n <= |p.jobs| && x < y < |Released(p, a, n)|
    ensures i < j < n && p.jobs[i].id == Released(p, a, n)[x] && p.jobs[j].id == Released(p, a, n)[y]
  {
    var rest := Released(p, a, n - 1);
    if y < |rest| {
      i, j := ReleasedInTurn(p, a, n - 1, x, y);
    } else {
      assert rest[x] in rest;
      var h :| 0 <= h < n - 1 && p.jobs[h].id == rest[x] && p.jobs[h].commitment.Confirmed? && a.released(h);
      i, j := h, n - 1;
    }
  }

  /** Whatever the solver returns, it releases the confirmed work that no route serves. */
  lemma UnservedPromisesAreReleased(p: Problem, a: Assignment, travel: Travel, j: nat)
    requires Feasible(p, a) && j < |p.jobs| && p.jobs[j].commitment.Confirmed?
    requires p.jobs[j].id !in RoutedJobs(DayRoutes(p, a, travel))
    ensures p.jobs[j].id in Released(p, a, |p.jobs|)
  {
    if CrewsVisiting(a, j, |p.vans|) >= 1 {
      var k := SomeCrewVisits(a, j, |p.vans|);
      VisitedIsRouted(p, a, travel, j, k);
    }
  }

  /** There is nothing to solve, or the solver has no answer. */
  predicate Unanswered(p: Problem, solve: Problem -> Option<Assignment>) {
    p.jobs == [] || p.workers == [] || p.vans == [] || solve(p).None?
  }

  function RoutesFor(p: Problem, solve: Problem -> Option<Assignment>, travel: Travel): seq<Route> {
    if Unanswered(p, solve) then [] else DayRoutes(p, solve(p).value, travel)
  }

  function ReleasedFor(p: Problem, solve: Problem -> Option<Assignment>): seq<JobId> {
    if Unanswered(p, solve) then [] else Released(p, solve(p).value, |p.jobs|)
  }

  /** A candidate's promise that the day's routes do not keep. */
  predicate BrokenOn(world: World, ids: seq<JobId>, routes: seq<Route>, x: JobId) {
    x in ids && x in world.jobs && world.jobs[x].commitment.Confirmed? && x !in RoutedJobs(routes)
  }

  /** Exactly when a broken promise is in the day's list: when the solver was asked and answered, and the job's
      parts and windows allowed the day, so that it was asked about this one. */
  lemma BrokenPromisesAreReportedIff(
    world: World, travel: Travel, onDate: Day, ids: seq<JobId>, pinned: map<JobId, seq<WorkerId>>,
    params: Params, probes: seq<Moment>, p: Problem, solve: Problem -> Option<Assignment>, x: JobId)
    requires Poses(world, travel, onDate, ids, pinned, params, probes, p) && WellKeyed(world)
    requires solve(p).Some? ==> Feasible(p, solve(p).value)
    requires BrokenOn(world, ids, RoutesFor(p, solve, travel), x)
    ensures x in ReleasedFor(p, solve) <==> !Unanswered(p, solve) && IsCandidate(world, onDate, x)
  {
    if !Unanswered(p, solve) {
      Agreement.JobsAreFiled(world, travel, onDate, ids, pinned, params, probes, p);
      if IsCandidate(world, onDate, x) {
        var eligible := Eligible(world, onDate, ids);
        assert x in eligible;
        var j :| 0 <= j < |eligible| && eligible[j] == x;
        UnservedPromisesAreReleased(p, solve(p).value, travel, j);
      }
    }
  }

  /** The eligible jobs no route took, and the promises the solver released. */
  method Leftover(p: Problem, a: Assignment, ghost eligible: seq<JobId>, scheduled: set<JobId>)
    returns (missed: seq<JobId>, released: seq<JobId>)
    requires |p.jobs| == |eligible| && forall j :: 0 <= j < |p.jobs| ==> p.jobs[j].id == eligible[j]
    ensures forall x :: x in missed <==> x in eligible && x !in scheduled
    ensures Distinct(eligible) ==> Distinct(missed)
    ensures released == Released(p, a, |p.jobs|)
  {
    missed, released := [], [];
    for j := 0 to |p.jobs|
      invariant forall x :: x in missed <==> x in eligible[..j] && x !in scheduled
      invariant Distinct(eligible) ==> Distinct(missed)
      invariant released == Released(p, a, j)
    {
      assert eligible[..j + 1] == eligible[..j] + [eligible[j]];
      if p.jobs[j].id !in scheduled {
        missed := missed + [p.jobs[j].id];
      }
      if p.jobs[j].commitment.Confirmed? && a.released(j) {
        released := released + [p.jobs[j].id];
      }
    }
    assert eligible[..|eligible|] == eligible;
  }

  /** Of the promises not kept, the day lists just those of its candidates that it asked about and was answered. */
  ghost predicate DayReleases(
    world: World, onDate: Day, ids: seq<JobId>, routes: seq<Route>, released: seq<JobId>, answered: bool)
  {
    && (forall x :: x in released ==> x in ids)
    && (forall x :: BrokenOn(world, ids, routes, x) ==> (x in released <==> answered && IsCandidate(world, onDate, x)))
  }

  lemma ReleasedAreAsked(
    world: World, travel: Travel, onDate: Day, ids: seq<JobId>, pinned: map<JobId, seq<WorkerId>>,
    params: Params, probes: seq<Moment>, p: Problem, solve: Problem -> Option<Assignment>)
    requires Poses(world, travel, onDate, ids, pinned, params, probes, p) && WellKeyed(world)
    ensures forall x :: x in ReleasedFor(p, solve) ==> x in ids
  {
    Agreement.JobsAreFiled(world, travel, onDate, ids, pinned, params, probes, p);
  }

  lemma ReleasesAreReported(
    world: World, travel: Travel, onDate: Day, ids: seq<JobId>, pinned: map<JobId, seq<WorkerId>>,
    params: Params, probes: seq<Moment>, p: Problem, solve: Problem -> Option<Assignment>)
    requires Poses(world, travel, onDate, ids, pinned, params, probes, p) && WellKeyed(world)
    requires solve(p).Some? ==> Feasible(p, solve(p).value)
    ensures DayReleases(world, onDate, ids, RoutesFor(p, solve, travel), ReleasedFor(p, solve), !Unanswered(p, solve))
  {
    ReleasedAreAsked(world, travel, onDate, ids, pinned, params, probes, p, solve);
    forall x | BrokenOn(world, ids, RoutesFor(p, solve, travel), x)
      ensures x in ReleasedFor(p, solve) <==> !Unanswered(p, solve) && IsCandidate(world, onDate, x)
    {
      BrokenPromisesAreReportedIff(world, travel, onDate, ids, pinned, params, probes, p, solve, x);
    }
  }

  /** One day, from world to result. `solve` is any solver that answers with a feasible assignment or
      not at all. */
  method PlanDay(
    world: World, travel: Travel, onDate: Day, ids: seq<JobId>, pinned: map<JobId, seq<WorkerId>>, locked: set<JobId>,
    params: Params, solve: Problem -> Option<Assignment>)
    returns (result: DayResult, p: Problem, probes: seq<Moment>)
    requires WellKeyed(world)
    requires forall q: Problem :: solve(q).Some? ==> Feasible(q, solve(q).value)
    ensures Poses(world, travel, onDate, ids, pinned, params, probes, p)
    ensures result.routes == RoutesFor(p, solve, travel) && result.released == ReleasedFor(p, solve)
    ensures DayReleases(world, onDate, ids, result.routes, result.released, !Unanswered(p, solve))
    ensures Distinct(ids) ==> Accounted(world, ids, result.routes, result.unserved)
  {
    var eligible, early := Triage(world, onDate, ids);
    p, probes := PoseProblem(world, travel, onDate, eligible, pinned, locked, params);
    ReleasesAreReported(world, travel, onDate, ids, pinned, params, probes, p, solve);
    PosedAreNamed(world, travel, onDate, ids, pinned, params, probes, p);
    if p.jobs == [] || p.workers == [] || p.vans == [] {
      result := DayResult([], early + eligible, []);
      Unrouted(world, onDate, ids, eligible, early);
      return;
    }
    var answer := solve(p);
    if answer.None? {
      result := DayResult([], early + eligible, []);
      Unrouted(world, onDate, ids, eligible, early);
      return;
    }
    result := ReadAnswer(world, travel, onDate, ids, p, answer.value, eligible, early);
  }

  lemma PosedAreNamed(
    world: World, travel: Travel, onDate: Day, ids: seq<JobId>, pinned: map<JobId, seq<WorkerId>>,
    params: Params, probes: seq<Moment>, p: Problem)
    requires Poses(world, travel, onDate, ids, pinned, params, probes, p) && WellKeyed(world)
    ensures Agreement.Filed(world, p)
    ensures var eligible := Eligible(world, onDate, ids);
            |p.jobs| == |eligible| && forall j :: 0 <= j < |p.jobs| ==> p.jobs[j].id == eligible[j]
  {
    Agreement.JobsAreFiled(world, travel, onDate, ids, pinned, params, probes, p);
    var eligible := Eligible(world, onDate, ids);
    forall j | 0 <= j < |p.jobs| ensures p.jobs[j].id == eligible[j] { assert eligible[j] in eligible; }
  }

  /** The solver's answer as routes, with what it left. */
  method ReadAnswer(
    world: World, travel: Travel, onDate: Day, ghost ids: seq<JobId>, p: Problem, a: Assignment,
    eligible: seq<JobId>, early: seq<JobId>)
    returns (result: DayResult)
    requires Agreement.Filed(world, p) && Feasible(p, a) && eligible == Eligible(world, onDate, ids)
    requires |p.jobs| == |eligible| && forall j :: 0 <= j < |p.jobs| ==> p.jobs[j].id == eligible[j]
    requires forall x :: x in early <==>
               x in ids && x in world.jobs && IsActive(world.jobs[x]) && !IsCandidate(world, onDate, x)
    requires Distinct(ids) ==> Distinct(early)
    ensures result.routes == DayRoutes(p, a, travel) && result.released == Released(p, a, |p.jobs|)
    ensures Distinct(ids) ==> Accounted(world, ids, result.routes, result.unserved)
  {
    var routes, scheduled := ReadRoutes(world, travel, p, a);
    var missed, released := Leftover(p, a, eligible, scheduled);
    result := DayResult(routes, early + missed, released);
    if Distinct(ids) {
      AccountedFor(world, travel, onDate, ids, p, a, eligible, early, missed, scheduled);
    }
  }

  lemma Unrouted(world: World, onDate: Day, ids: seq<JobId>, eligible: seq<JobId>, early: seq<JobId>)
    requires eligible == Eligible(world, onDate, ids)
    requires forall x :: x in early <==>
               x in ids && x in world.jobs && IsActive(world.jobs[x]) && !IsCandidate(world, onDate, x)
    requires Distinct(ids) ==> Distinct(early)
    ensures Distinct(ids) ==> Accounted(world, ids, [], early + eligible)
  {
    if Distinct(ids) {
      var all := early + eligible;
      assert RoutedJobs([]) + all == all;
      forall i, j | 0 <= i < j < |all| ensures all[i] != all[j] {
        if i < |early| <= j {
          assert early[i] in early && eligible[j - |early|] in eligible;
        }
      }
    }
  }

  lemma AccountedFor(
    world: World, travel: Travel, onDate: Day, ids: seq<JobId>, p: Problem, a: Assignment,
    eligible: seq<JobId>, early: seq<JobId>, missed: seq<JobId>, scheduled: set<JobId>)
    requires Distinct(ids) && eligible == Eligible(world, onDate, ids)
    requires Agreement.Filed(world, p) && Sized(p) && ServiceRules(p, a)
    requires |p.jobs| == |eligible| && forall j :: 0 <= j < |p.jobs| ==> p.jobs[j].id == eligible[j]
    requires forall x :: x in early <==>
               x in ids && x in world.jobs && IsActive(world.jobs[x]) && !IsCandidate(world, onDate, x)
    requires forall x :: x in missed <==> x in eligible && x !in scheduled
    requires forall x :: x in scheduled <==> OnSomeRoute(DayRoutes(p, a, travel), x)
    requires Distinct(early) && Distinct(missed)
    ensures Accounted(world, ids, DayRoutes(p, a, travel), early + missed)
  {
    var routes := DayRoutes(p, a, travel);
    var routed, rest := RoutedJobs(routes), early + missed;
    DayRoutesJobs(world, travel, p, a);
    forall x ensures x in routed <==> x in scheduled {
      RoutedJobsMembers(routes, x);
    }
    forall x ensures x in routed ==> x in eligible {}
    forall i, j | 0 <= i < |early| && 0 <= j < |missed| ensures early[i] != missed[j] {
      assert early[i] in early && missed[j] in missed;
    }
    DistinctConcat(early, missed);
    forall i, j | 0 <= i < |routed| && 0 <= j < |rest| ensures routed[i] != rest[j] {
      assert routed[i] in routed && rest[j] in rest;
    }
    DistinctConcat(routed, rest);
  }
}
