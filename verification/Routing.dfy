/** Turning a sequence of jobs into stops with clock times (scheduler/routing.py). */
module Routing {
  import opened Collections
  import opened Domain
  import I = Invariants

  // ------------------------------------------------------------ earliest start

  /** Whether service begun on arrival, or at opening time if early, suits the window. */
  predicate Fits(w: Window, duration: int, arrival: Moment) {
    w.hardness.Soft? || Max(arrival, w.start) + duration <= w.end
  }

  /** The best start among the windows looked at so far. */
  function BestStart(windows: seq<Window>, duration: int, arrival: Moment): Option<Moment> {
    if windows == [] then None else
      var best := BestStart(windows[..|windows| - 1], duration, arrival);
      var w := windows[|windows| - 1];
      var start := Max(arrival, w.start);
      if Fits(w, duration, arrival) && (best.None? || start < best.value) then Some(start) else best
  }

  function EarliestStart(job: Job, arrival: Moment): Moment {
    var best := BestStart(job.windows, job.duration, arrival);
    if best.Some? then best.value else arrival
  }

  method ComputeEarliestStart(job: Job, arrival: Moment) returns (r: Moment)
    ensures r == EarliestStart(job, arrival)
  {
    var best: Option<Moment> := None;
    for i := 0 to |job.windows|
      invariant best == BestStart(job.windows[..i], job.duration, arrival)
    {
      var w := job.windows[i];
      var start := Max(arrival, w.start);
      assert job.windows[..i + 1][..i] == job.windows[..i];
      if Fits(w, job.duration, arrival) && (best.None? || start < best.value) {
        best := Some(start);
      }
    }
    assert job.windows[..|job.windows|] == job.windows;
    return if best.Some? then best.value else arrival;
  }

  /** Service starts at the least moment any fitting window allows, and with no fitting window on arrival. */
  lemma {:induction false} EarliestStartIsLeast(windows: seq<Window>, duration: int, arrival: Moment)
    ensures BestStart(windows, duration, arrival).None? <==> forall w :: w in windows ==> !Fits(w, duration, arrival)
    ensures var b := BestStart(windows, duration, arrival);
            b.Some? ==>
              && (exists w :: w in windows && Fits(w, duration, arrival) && b.value == Max(arrival, w.start))
              && (forall w :: w in windows && Fits(w, duration, arrival) ==> b.value <= Max(arrival, w.start))
  {
    if windows != [] {
      var n := |windows| - 1;
      EarliestStartIsLeast(windows[..n], duration, arrival);
      assert windows == windows[..n] + [windows[n]];
    }
  }

  lemma EarliestStartNotBefore(job: Job, arrival: Moment)
    ensures EarliestStart(job, arrival) >= arrival
  {
    EarliestStartIsLeast(job.windows, job.duration, arrival);
  }

  // ---------------------------------------------------------- departure search

  /** How the departure search ended. `Immediate`: there was nothing to wait for. `Settled`: the
      departure reproduced itself. `LeaveNow`: the search fell back to leaving as soon as the crew
      was free. `Exhausted`: three rounds passed without settling. */
  datatype Ending = Immediate | Settled | LeaveNow | Exhausted

  datatype Drive = Drive(leg: Leg, arrival: Moment, ending: Ending)

  const ROUNDS := 3

  function Search(travel: Travel, origin: Location, job: Job, readyAt: Moment, depart: Moment, rounds: nat): Drive
    decreases rounds
  {
    var first := travel(origin, job.location, readyAt);
    var target := EarliestStart(job, readyAt + first.minutes);
    if rounds == 0 then
      var settled := travel(origin, job.location, Max(depart, readyAt));
      Drive(settled, Max(target, Max(depart, readyAt) + settled.minutes), Exhausted)
    else if depart <= readyAt then
      Drive(first, Max(target, readyAt + first.minutes), LeaveNow)
    else
      var candidate := travel(origin, job.location, depart);
      if target - candidate.minutes == depart then Drive(candidate, target, Settled)
      else Search(travel, origin, job, readyAt, target - candidate.minutes, rounds - 1)
  }

  function DepartAndArrive(travel: Travel, origin: Location, job: Job, readyAt: Moment): Drive {
    var leg := travel(origin, job.location, readyAt);
    var naive := readyAt + leg.minutes;
    var target := EarliestStart(job, naive);
    if target <= naive then Drive(leg, target, Immediate)
    else Search(travel, origin, job, readyAt, target - leg.minutes, ROUNDS)
  }

  /** One turn of the search, in terms of the first leg and the target it found. */
  lemma SearchTurns(
    travel: Travel, origin: Location, job: Job, readyAt: Moment, depart: Moment, rounds: nat, first: Leg,
    target: Moment)
    requires first == travel(origin, job.location, readyAt) && target == EarliestStart(job, readyAt + first.minutes)
    ensures var candidate, settled := travel(origin, job.location, depart),
                                      travel(origin, job.location, Max(depart, readyAt));
            var sought := Search(travel, origin, job, readyAt, depart, rounds);
            if rounds == 0 then sought == Drive(settled, Max(target, Max(depart, readyAt) + settled.minutes), Exhausted)
            else if depart <= readyAt then sought == Drive(first, Max(target, readyAt + first.minutes), LeaveNow)
            else if target - candidate.minutes == depart then sought == Drive(candidate, target, Settled)
            else sought == Search(travel, origin, job, readyAt, target - candidate.minutes, rounds - 1)
  {
  }

  method ChooseDeparture(travel: Travel, origin: Location, job: Job, readyAt: Moment) returns (r: Drive)
    ensures r == DepartAndArrive(travel, origin, job, readyAt)
  {
    var leg := travel(origin, job.location, readyAt);
    var naive := readyAt + leg.minutes;
    var target := ComputeEarliestStart(job, naive);
    if target <= naive {
      return Drive(leg, target, Immediate);
    }
    var depart := target - leg.minutes;
    ghost var sought := Search(travel, origin, job, readyAt, depart, ROUNDS);
    assert sought == DepartAndArrive(travel, origin, job, readyAt);
    for round := 0 to ROUNDS
      invariant sought == Search(travel, origin, job, readyAt, depart, ROUNDS - round)
    {
      SearchTurns(travel, origin, job, readyAt, depart, ROUNDS - round, leg, target);
      if depart <= readyAt {
        return Drive(leg, Max(target, naive), LeaveNow);
      }
      var candidate := travel(origin, job.location, depart);
      var next := target - candidate.minutes;
      if next == depart {
        return Drive(candidate, target, Settled);
      }
      depart := next;
    }
    SearchTurns(travel, origin, job, readyAt, depart, 0, leg, target);
    var settled := travel(origin, job.location, Max(depart, readyAt));
    return Drive(settled, Max(target, Max(depart, readyAt) + settled.minutes), Exhausted);
  }

  /** What the search promises of its answer, whatever the roads do. */
  ghost predicate HonestDrive(travel: Travel, origin: Location, job: Job, readyAt: Moment, d: Drive) {
    var first := travel(origin, job.location, readyAt);
    var target := EarliestStart(job, readyAt + first.minutes);
    && d.arrival >= readyAt + first.minutes
    && d.arrival >= target
    && d.arrival - d.leg.minutes >= readyAt
    && (!d.ending.Exhausted? ==> d.arrival == target)
    && (d.ending.Immediate? || d.ending.Settled? ==>
          d.leg == travel(origin, job.location, d.arrival - d.leg.minutes))
  }

  lemma {:induction false} SearchIsHonest(
    travel: Travel, origin: Location, job: Job, readyAt: Moment, depart: Moment, rounds: nat)
    requires var naive := readyAt + travel(origin, job.location, readyAt).minutes;
             EarliestStart(job, naive) > naive
    ensures HonestDrive(travel, origin, job, readyAt, Search(travel, origin, job, readyAt, depart, rounds))
    decreases rounds
  {
    if rounds > 0 && depart > readyAt {
      var first := travel(origin, job.location, readyAt);
      var target := EarliestStart(job, readyAt + first.minutes);
      var candidate := travel(origin, job.location, depart);
      SearchIsHonest(travel, origin, job, readyAt, target - candidate.minutes, rounds - 1);
    }
  }

  /** For every travel oracle: the crew never arrives sooner than the road from where it was
      ready allows, never implies leaving before it was ready, and, unless the search ran out of
      rounds, arrives exactly when service can first begin. A settled answer carries the travel time
      of the very departure it implies. */
  lemma DriveIsHonest(travel: Travel, origin: Location, job: Job, readyAt: Moment)
    ensures HonestDrive(travel, origin, job, readyAt, DepartAndArrive(travel, origin, job, readyAt))
  {
    var leg := travel(origin, job.location, readyAt);
    var naive := readyAt + leg.minutes;
    EarliestStartNotBefore(job, naive);
    if EarliestStart(job, naive) > naive {
      SearchIsHonest(travel, origin, job, readyAt, EarliestStart(job, naive) - leg.minutes, ROUNDS);
    }
  }

  /** When travel does not depend on the hour, the search settles in its first round. */
  lemma SteadyRoadsSettle(travel: Travel, origin: Location, job: Job, readyAt: Moment)
    requires TimeIndependent(travel)
    ensures var d := DepartAndArrive(travel, origin, job, readyAt); d.ending.Immediate? || d.ending.Settled?
  {
    var leg := travel(origin, job.location, readyAt);
    var target := EarliestStart(job, readyAt + leg.minutes);
    assert travel(origin, job.location, target - leg.minutes) == leg;
  }

  // ------------------------------------------------ the search, from its inputs

  /** The minutes of the road to the job, leaving at `t`. */
  function Road(travel: Travel, origin: Location, job: Job, t: Moment): nat {
    travel(origin, job.location, t).minutes
  }

  /** When service could begin if the crew left as soon as it is ready. */
  function Target(travel: Travel, origin: Location, job: Job, readyAt: Moment): Moment {
    EarliestStart(job, readyAt + Road(travel, origin, job, readyAt))
  }

  /** There is something to wait for. */
  predicate Waits(travel: Travel, origin: Location, job: Job, readyAt: Moment) {
    readyAt + Road(travel, origin, job, readyAt) < Target(travel, origin, job, readyAt)
  }

  /** The departures tried: each would reach the target on the road of the one before it. */
  function Try(travel: Travel, origin: Location, job: Job, readyAt: Moment, n: nat): Moment {
    Target(travel, origin, job, readyAt) -
    Road(travel, origin, job, if n == 0 then readyAt else Try(travel, origin, job, readyAt, n - 1))
  }

  /** A departure tried that would need leaving before the crew is ready. */
  predicate TooSoon(travel: Travel, origin: Location, job: Job, readyAt: Moment, n: nat) {
    Try(travel, origin, job, readyAt, n) <= readyAt
  }

  /** A departure tried whose own road leads back to it. */
  predicate Reproduces(travel: Travel, origin: Location, job: Job, readyAt: Moment, n: nat) {
    Try(travel, origin, job, readyAt, n + 1) == Try(travel, origin, job, readyAt, n)
  }

  /** None of the first `n` departures tried decides the search. */
  predicate Undecided(travel: Travel, origin: Location, job: Job, readyAt: Moment, n: nat) {
    forall k: nat :: k < n ==>
      !TooSoon(travel, origin, job, readyAt, k) && !Reproduces(travel, origin, job, readyAt, k)
  }

  predicate SettlesAt(travel: Travel, origin: Location, job: Job, readyAt: Moment, n: nat) {
    && Undecided(travel, origin, job, readyAt, n)
    && !TooSoon(travel, origin, job, readyAt, n) && Reproduces(travel, origin, job, readyAt, n)
  }

  predicate FallsBackAt(travel: Travel, origin: Location, job: Job, readyAt: Moment, n: nat) {
    Undecided(travel, origin, job, readyAt, n) && TooSoon(travel, origin, job, readyAt, n)
  }

  /** Three departures tried and none of them decides. */
  predicate RunsOut(travel: Travel, origin: Location, job: Job, readyAt: Moment) {
    Waits(travel, origin, job, readyAt) && Undecided(travel, origin, job, readyAt, ROUNDS)
  }

  /** The departure taken when the search runs out. */
  function LastResort(travel: Travel, origin: Location, job: Job, readyAt: Moment): Moment {
    Max(Try(travel, origin, job, readyAt, ROUNDS), readyAt)
  }

  /** What the search answers from the `n`-th departure on. */
  ghost predicate EndsBy(travel: Travel, origin: Location, job: Job, readyAt: Moment, n: nat, d: Drive)
    requires n <= ROUNDS
  {
    match d.ending
    case Immediate => false
    case Settled => exists k: nat :: n <= k < ROUNDS && SettlesAt(travel, origin, job, readyAt, k)
    case LeaveNow =>
      && d.leg == travel(origin, job.location, readyAt)
      && exists k: nat :: n <= k < ROUNDS && FallsBackAt(travel, origin, job, readyAt, k)
    case Exhausted =>
      && Undecided(travel, origin, job, readyAt, ROUNDS)
      && var m := LastResort(travel, origin, job, readyAt);
      && d.leg == travel(origin, job.location, m)
      && d.arrival == Max(Target(travel, origin, job, readyAt), m + d.leg.minutes)
  }

  lemma {:induction false} SearchUnrolls(travel: Travel, origin: Location, job: Job, readyAt: Moment, n: nat)
    requires n <= ROUNDS && Undecided(travel, origin, job, readyAt, n)
    ensures EndsBy(travel, origin, job, readyAt, n,
                   Search(travel, origin, job, readyAt, Try(travel, origin, job, readyAt, n), ROUNDS - n))
    decreases ROUNDS - n
  {
    if n < ROUNDS {
      var depart := Try(travel, origin, job, readyAt, n);
      var d := Search(travel, origin, job, readyAt, depart, ROUNDS - n);
      assert Try(travel, origin, job, readyAt, n + 1)
          == Target(travel, origin, job, readyAt) - travel(origin, job.location, depart).minutes;
      if TooSoon(travel, origin, job, readyAt, n) {
        assert FallsBackAt(travel, origin, job, readyAt, n);
      } else if Reproduces(travel, origin, job, readyAt, n) {
        assert SettlesAt(travel, origin, job, readyAt, n);
      } else {
        SearchUnrolls(travel, origin, job, readyAt, n + 1);
        assert d == Search(travel, origin, job, readyAt, Try(travel, origin, job, readyAt, n + 1), ROUNDS - (n + 1));
      }
    }
  }

  /** The departures tried decide the search in one way only. */
  lemma DecidedOnce(travel: Travel, origin: Location, job: Job, readyAt: Moment, j: nat, k: nat)
    requires SettlesAt(travel, origin, job, readyAt, j)
    ensures !FallsBackAt(travel, origin, job, readyAt, k)
  {
    assert j < k ==> !Undecided(travel, origin, job, readyAt, k);
  }

  predicate Settling(travel: Travel, origin: Location, job: Job, readyAt: Moment) {
    exists n: nat :: n < ROUNDS && SettlesAt(travel, origin, job, readyAt, n)
  }

  predicate FallingBack(travel: Travel, origin: Location, job: Job, readyAt: Moment) {
    exists n: nat :: n < ROUNDS && FallsBackAt(travel, origin, job, readyAt, n)
  }

  /** How the search ends, read off its inputs. */
  lemma EndingIff(travel: Travel, origin: Location, job: Job, readyAt: Moment)
    ensures var d := DepartAndArrive(travel, origin, job, readyAt);
            var waits := Waits(travel, origin, job, readyAt);
            && (d.ending.Immediate? <==> !waits)
            && (d.ending.Settled? <==> waits && Settling(travel, origin, job, readyAt))
            && (d.ending.LeaveNow? <==> waits && FallingBack(travel, origin, job, readyAt))
            && (d.ending.Exhausted? <==> RunsOut(travel, origin, job, readyAt))
            && (waits ==> EndsBy(travel, origin, job, readyAt, 0, d))
  {
    EarliestStartNotBefore(job, readyAt + Road(travel, origin, job, readyAt));
    if Waits(travel, origin, job, readyAt) {
      SearchUnrolls(travel, origin, job, readyAt, 0);
      forall j: nat, k: nat | SettlesAt(travel, origin, job, readyAt, j)
        ensures !FallsBackAt(travel, origin, job, readyAt, k)
      {
        DecidedOnce(travel, origin, job, readyAt, j, k);
      }
    }
  }

  // --------------------------------------------------------------- first leg

  /** The checker prices a route's first leg at the departure it implies. */
  predicate FirstLegAccepted(travel: Travel, origin: Location, job: Job, d: Drive, slack: nat) {
    var departAt := d.arrival - d.leg.minutes;
    d.arrival >= departAt + travel(origin, job.location, departAt).minutes - slack
  }

  /** What a first leg needs, known before the search: nothing to wait for; or a departure that
      reproduces itself; or, where the search falls back to leaving at once, a road that is no slower
      beyond the slack for the departure first tried; or, where it runs out, one no slower for waiting. */
  predicate FirstLegWillPass(travel: Travel, origin: Location, job: Job, readyAt: Moment, slack: nat) {
    var m := LastResort(travel, origin, job, readyAt);
    var due := Target(travel, origin, job, readyAt) - Road(travel, origin, job, m);
    || !Waits(travel, origin, job, readyAt)
    || Settling(travel, origin, job, readyAt)
    || (FallingBack(travel, origin, job, readyAt)
        && Road(travel, origin, job, Try(travel, origin, job, readyAt, 0))
            <= Road(travel, origin, job, readyAt) + slack)
    || (RunsOut(travel, origin, job, readyAt)
        && Road(travel, origin, job, Max(due, m)) <= Road(travel, origin, job, m) + slack)
  }

  /** Exactly when the checker accepts the first leg, in terms of the roads and windows alone. */
  lemma FirstLegAcceptedIff(travel: Travel, origin: Location, job: Job, readyAt: Moment, slack: nat)
    ensures FirstLegAccepted(travel, origin, job, DepartAndArrive(travel, origin, job, readyAt), slack) <==>
            FirstLegWillPass(travel, origin, job, readyAt, slack)
  {
    EndingIff(travel, origin, job, readyAt);
    DriveIsHonest(travel, origin, job, readyAt);
  }

  /** A road that is quick at the moment the crew is free and slow later on defeats the search: it
      falls back to leaving at once, keeps that moment's travel time, and is rejected. */
  lemma FirstLegCanBeRejected()
    ensures exists travel: Travel, origin: Location, job: Job, readyAt: Moment ::
              var d := DepartAndArrive(travel, origin, job, readyAt);
              d.ending.LeaveNow? && !FirstLegAccepted(travel, origin, job, d, 1)
  {
    var origin := Location(0.0, 0.0);
    var job := Job("j", "", Location(1.0, 1.0), None, {}, 1, 60, [], [Window(100, 400, Hard)], Provisional, 0, 0, 0);
    var travel: Travel := (a: Location, b: Location, t: Moment) => if t <= 0 then Leg(10, 0.0) else Leg(200, 0.0);
    assert BestStart(job.windows, 60, 10) == Some(100) by {
      assert job.windows[..0] == [];
    }
    assert EarliestStart(job, 10) == 100;
    assert travel(origin, job.location, 90) == Leg(200, 0.0);
    assert Search(travel, origin, job, 0, 90, 3) == Search(travel, origin, job, 0, -100, 2);
    assert Search(travel, origin, job, 0, -100, 2) == Drive(Leg(10, 0.0), 100, LeaveNow);
    assert DepartAndArrive(travel, origin, job, 0) == Drive(Leg(10, 0.0), 100, LeaveNow);
    assert !FirstLegAccepted(travel, origin, job, DepartAndArrive(travel, origin, job, 0), 1);
  }

  // --------------------------------------------------------------- the replay

  function StopFor(job: Job, d: Drive): Stop {
    Stop(job.id, d.arrival, d.arrival + job.duration, d.leg.minutes, d.leg.miles)
  }

  /** The stops made from `position` and `clock` on. */
  function Walk(travel: Travel, position: Location, clock: Moment, jobs: seq<Job>): (r: seq<Stop>)
    ensures |r| == |jobs|
    decreases |jobs|
  {
    if jobs == [] then [] else
      var stop := StopFor(jobs[0], DepartAndArrive(travel, position, jobs[0], clock));
      [stop] + Walk(travel, jobs[0].location, stop.departure, jobs[1..])
  }

  function Materialize(
    travel: Travel, crewId: string, workerIds: seq<WorkerId>, van: Van, date: Day, jobs: seq<Job>, shiftStart: Moment)
    : Route
  {
    var stops := Walk(travel, van.homeDepot, shiftStart, jobs);
    if stops == [] then Route(crewId, date, workerIds, van.id, [], 0, 0.0)
    else
      var home := travel(jobs[|jobs| - 1].location, van.homeDepot, stops[|stops| - 1].departure);
      Route(crewId, date, workerIds, van.id, stops, home.minutes, home.miles)
  }

  /** Every id names a job filed under it. */
  predicate Filed(world: World, ids: seq<JobId>) {
    forall i :: 0 <= i < |ids| ==> ids[i] in world.jobs && world.jobs[ids[i]].id == ids[i]
  }

  function JobsOf(world: World, ids: seq<JobId>): (r: seq<Job>)
    requires forall i :: 0 <= i < |ids| ==> ids[i] in world.jobs
    ensures |r| == |ids|
    ensures forall i :: 0 <= i < |ids| ==> r[i] == world.jobs[ids[i]]
  {
    seq(|ids|, i requires 0 <= i < |ids| => world.jobs[ids[i]])
  }

  /** Where the crew is, and when it is free, before stop `i`. */
  function OriginOf(position: Location, jobs: seq<Job>, i: nat): Location
    requires i <= |jobs|
  {
    if i == 0 then position else jobs[i - 1].location
  }

  function ReadyFor(clock: Moment, stops: seq<Stop>, i: nat): Moment
    requires i <= |stops|
  {
    if i == 0 then clock else stops[i - 1].departure
  }

  /** The drive chosen for stop `i` of a walk. */
  function DriveAt(travel: Travel, position: Location, clock: Moment, jobs: seq<Job>, i: nat): Drive
    requires i < |jobs|
  {
    var stops := Walk(travel, position, clock, jobs);
    DepartAndArrive(travel, OriginOf(position, jobs, i), jobs[i], ReadyFor(clock, stops, i))
  }

  /** A walk, stop by stop: each is the drive from the previous job's door, begun when it was done. */
  lemma {:induction false} WalkStepwise(travel: Travel, position: Location, clock: Moment, jobs: seq<Job>, i: nat)
    requires i < |jobs|
    ensures Walk(travel, position, clock, jobs)[i] == StopFor(jobs[i], DriveAt(travel, position, clock, jobs, i))
    decreases |jobs|
  {
    var stops := Walk(travel, position, clock, jobs);
    if i > 0 {
      var rest := Walk(travel, jobs[0].location, stops[0].departure, jobs[1..]);
      WalkStepwise(travel, jobs[0].location, stops[0].departure, jobs[1..], i - 1);
      assert stops[i] == rest[i - 1];
      assert i > 1 ==> stops[i - 1] == rest[i - 2];
      assert OriginOf(jobs[0].location, jobs[1..], i - 1) == OriginOf(position, jobs, i);
      assert ReadyFor(stops[0].departure, rest, i - 1) == ReadyFor(clock, stops, i);
    }
  }

  /** The moment whose road the drive takes: the departure it implies, or what a search that did not settle tried
      last. */
  function RoadTakenAt(travel: Travel, origin: Location, job: Job, readyAt: Moment, d: Drive): Moment {
    match d.ending
    case LeaveNow => readyAt
    case Exhausted => LastResort(travel, origin, job, readyAt)
    case _ => d.arrival - d.leg.minutes
  }

  /** However the search ends, the leg is a road the oracle gave for leaving then, and not before the crew is ready. */
  lemma DriveTakesARoad(travel: Travel, origin: Location, job: Job, readyAt: Moment)
    ensures var d := DepartAndArrive(travel, origin, job, readyAt);
            var t := RoadTakenAt(travel, origin, job, readyAt, d);
            t >= readyAt && d.leg == travel(origin, job.location, t)
  {
    DriveIsHonest(travel, origin, job, readyAt);
    EndingIff(travel, origin, job, readyAt);
  }

  /** A visit as it is recorded: the job's whole length from when the drive gets there, and the road driven. */
  ghost predicate Records(stop: Stop, job: Job, origin: Location, ready: Moment, travel: Travel) {
    var d := DepartAndArrive(travel, origin, job, ready);
    var road := travel(origin, job.location, RoadTakenAt(travel, origin, job, ready, d));
    && stop.jobId == job.id && stop.arrival == d.arrival && stop.departure == stop.arrival + job.duration
    && stop.travelMinutes == road.minutes && stop.travelMiles == road.miles
  }

  /** The way home as it is recorded: the road from the last job's door to the depot, leaving when that job is done,
      at whose end the crew's time is up. */
  ghost predicate RecordsTheWayHome(route: Route, last: Job, depot: Location, travel: Travel)
    requires route.stops != []
  {
    var done := route.stops[|route.stops| - 1].departure;
    var road := travel(last.location, depot, done);
    && route.returnMinutes == road.minutes && route.returnMiles == road.miles
    && I.RouteSpan(route) == Some((route.stops[0].arrival - route.stops[0].travelMinutes, done + road.minutes))
  }

  /** The whole outing: every visit in turn, and the way home if there was any. */
  ghost predicate RecordsTheOuting(route: Route, jobs: seq<Job>, depot: Location, shiftStart: Moment, travel: Travel) {
    && |route.stops| == |jobs|
    && (forall i :: 0 <= i < |jobs| ==>
          Records(route.stops[i], jobs[i], OriginOf(depot, jobs, i), ReadyFor(shiftStart, route.stops, i), travel))
    && if jobs == [] then route.returnMinutes == 0 && route.returnMiles == 0.0
       else RecordsTheWayHome(route, jobs[|jobs| - 1], depot, travel)
  }

  lemma ReplayRecords(
    travel: Travel, crewId: string, workerIds: seq<WorkerId>, van: Van, date: Day, jobs: seq<Job>, shiftStart: Moment)
    ensures var route := Materialize(travel, crewId, workerIds, van, date, jobs, shiftStart);
            && route.crewId == crewId && route.date == date && route.workerIds == workerIds && route.vanId == van.id
            && RecordsTheOuting(route, jobs, van.homeDepot, shiftStart, travel)
  {
    var stops := Walk(travel, van.homeDepot, shiftStart, jobs);
    forall i | 0 <= i < |jobs|
      ensures Records(stops[i], jobs[i], OriginOf(van.homeDepot, jobs, i), ReadyFor(shiftStart, stops, i), travel)
    {
      WalkStepwise(travel, van.homeDepot, shiftStart, jobs, i);
      DriveTakesARoad(travel, OriginOf(van.homeDepot, jobs, i), jobs[i], ReadyFor(shiftStart, stops, i));
    }
  }

  method MaterializeRoute(
    world: World, travel: Travel, crewId: string, workerIds: seq<WorkerId>, vanId: VanId, date: Day,
    jobSequence: seq<JobId>, shiftStart: Moment)
    returns (route: Route)
    requires vanId in world.vans && world.vans[vanId].id == vanId
    requires Filed(world, jobSequence)
    ensures route == Materialize(travel, crewId, workerIds, world.vans[vanId], date,
                                 JobsOf(world, jobSequence), shiftStart)
    ensures route.crewId == crewId && route.date == date && route.workerIds == workerIds && route.vanId == vanId
    ensures RecordsTheOuting(route, JobsOf(world, jobSequence), world.vans[vanId].homeDepot, shiftStart, travel)
  {
    var van := world.vans[vanId];
    var position := van.homeDepot;
    var clock := shiftStart;
    var stops: seq<Stop> := [];
    ghost var jobs := JobsOf(world, jobSequence);
    ghost var whole := Walk(travel, position, clock, jobs);
    for i := 0 to |jobSequence|
      invariant stops == whole[..i]
      invariant position == OriginOf(van.homeDepot, jobs, i)
      invariant clock == ReadyFor(shiftStart, whole, i)
    {
      var job := world.jobs[jobSequence[i]];
      var d := ChooseDeparture(travel, position, job, clock);
      WalkStepwise(travel, van.homeDepot, shiftStart, jobs, i);
      assert d == DriveAt(travel, van.homeDepot, shiftStart, jobs, i);
      var stop := Stop(jobSequence[i], d.arrival, d.arrival + job.duration, d.leg.minutes, d.leg.miles);
      stops := stops + [stop];
      position := job.location;
      clock := stop.departure;
    }
    assert stops == whole;
    ReplayRecords(travel, crewId, workerIds, van, date, jobs, shiftStart);
    if stops == [] {
      return Route(crewId, date, workerIds, vanId, [], 0, 0.0);
    }
    var home := travel(position, van.homeDepot, clock);
    return Route(crewId, date, workerIds, vanId, stops, home.minutes, home.miles);
  }

  /** For any travel oracle whatever: each stop lasts as long as its job, begins no sooner than the
      previous stop's end plus the drive priced at that end, and implies no departure before the crew was free. */
  lemma WalkIsConsistent(travel: Travel, position: Location, clock: Moment, jobs: seq<Job>, i: nat)
    requires i < |jobs|
    ensures var stops := Walk(travel, position, clock, jobs);
            var ready := ReadyFor(clock, stops, i);
            && stops[i].jobId == jobs[i].id
            && stops[i].departure == stops[i].arrival + jobs[i].duration
            && stops[i].arrival >= ready + travel(OriginOf(position, jobs, i), jobs[i].location, ready).minutes
            && stops[i].arrival - stops[i].travelMinutes >= ready
  {
    var stops := Walk(travel, position, clock, jobs);
    WalkStepwise(travel, position, clock, jobs, i);
    DriveIsHonest(travel, OriginOf(position, jobs, i), jobs[i], ReadyFor(clock, stops, i));
  }

  // -------------------------------------------------------- pessimism is safe

  /** The planner's side of one stop: `start` lies inside some window in the sense its constraints
      give that word. */
  predicate StartSuits(job: Job, start: Moment) {
    job.windows == [] ||
    exists w :: w in job.windows && start >= w.start && (w.hardness.Hard? ==> start + job.duration <= w.end)
  }

  predicate AllSuit(jobs: seq<Job>, starts: seq<Moment>) {
    && |starts| == |jobs|
    && forall i: nat {:trigger StartSuits(jobs[i], starts[i])} :: i < |jobs| ==> StartSuits(jobs[i], starts[i])
  }

  /** When the plan has the crew free for job `i`. */
  function FreeBy(clock: Moment, jobs: seq<Job>, starts: seq<Moment>, i: nat): Moment
    requires i <= |jobs| == |starts|
  {
    if i == 0 then clock else starts[i - 1] + jobs[i - 1].duration
  }

  /** Planned starts leave room for every leg, at any moment a crew on time may set out on it. */
  ghost predicate RoomForLegs(travel: Travel, position: Location, clock: Moment, jobs: seq<Job>, starts: seq<Moment>)
  {
    && |starts| == |jobs|
    && forall i: nat, t: Moment :: i < |jobs| ==> RoomAt(travel, position, clock, jobs, starts, i, t)
  }

  predicate RoomAt(
    travel: Travel, position: Location, clock: Moment, jobs: seq<Job>, starts: seq<Moment>, i: nat, t: Moment)
    requires i < |jobs| == |starts|
  {
    var free := FreeBy(clock, jobs, starts, i);
    clock <= t <= free ==> starts[i] >= free + travel(OriginOf(position, jobs, i), jobs[i].location, t).minutes
  }

  /** No crew is ready before it sets out. */
  lemma {:induction false} ReadyNotBefore(
    travel: Travel, position: Location, clock: Moment, jobs: seq<Job>, i: nat)
    requires i <= |jobs|
    ensures ReadyFor(clock, Walk(travel, position, clock, jobs), i) >= clock
    decreases i
  {
    if i > 0 {
      ReadyNotBefore(travel, position, clock, jobs, i - 1);
      WalkIsConsistent(travel, position, clock, jobs, i - 1);
    }
  }

  /** A crew on time at the stop before has room for the leg from there. */
  lemma OnTimeHasRoom(
    travel: Travel, position: Location, clock: Moment, jobs: seq<Job>, starts: seq<Moment>, i: nat)
    requires RoomForLegs(travel, position, clock, jobs, starts) && i < |jobs|
    requires i > 0 ==> Walk(travel, position, clock, jobs)[i - 1].arrival <= starts[i - 1]
    ensures var ready := ReadyFor(clock, Walk(travel, position, clock, jobs), i);
            starts[i] >= ready + travel(OriginOf(position, jobs, i), jobs[i].location, ready).minutes
  {
    ReadyNotBefore(travel, position, clock, jobs, i);
    if i > 0 {
      WalkIsConsistent(travel, position, clock, jobs, i - 1);
    }
    var ready := ReadyFor(clock, Walk(travel, position, clock, jobs), i);
    assert RoomAt(travel, position, clock, jobs, starts, i, ready);
  }

  lemma StartNoLaterThanSuitable(job: Job, arrival: Moment, start: Moment)
    requires arrival <= start && StartSuits(job, start)
    ensures EarliestStart(job, arrival) <= start
  {
    EarliestStartIsLeast(job.windows, job.duration, arrival);
    if job.windows != [] {
      var w :| w in job.windows && start >= w.start && (w.hardness.Hard? ==> start + job.duration <= w.end);
      assert Fits(w, job.duration, arrival);
    }
  }

  /** A search that runs out still gets there by `start`. */
  predicate InTime(travel: Travel, origin: Location, job: Job, readyAt: Moment, start: Moment) {
    RunsOut(travel, origin, job, readyAt) ==>
      var m := LastResort(travel, origin, job, readyAt); m + Road(travel, origin, job, m) <= start
  }

  /** One drive: a crew free no later than planned, with room for the road, starts no later than planned
      exactly when the search does not run out or its last resort is quick enough. */
  lemma DriveIsOnTime(travel: Travel, origin: Location, job: Job, readyAt: Moment, start: Moment)
    requires start >= readyAt + travel(origin, job.location, readyAt).minutes
    requires StartSuits(job, start)
    ensures DepartAndArrive(travel, origin, job, readyAt).arrival <= start <==>
            InTime(travel, origin, job, readyAt, start)
  {
    EndingIff(travel, origin, job, readyAt);
    DriveIsHonest(travel, origin, job, readyAt);
    StartNoLaterThanSuitable(job, readyAt + travel(origin, job.location, readyAt).minutes, start);
  }

  /** It arrives exactly when service can first begin under the same condition on that moment. */
  lemma DriveIsPunctual(travel: Travel, origin: Location, job: Job, readyAt: Moment)
    ensures DepartAndArrive(travel, origin, job, readyAt).arrival == Target(travel, origin, job, readyAt) <==>
            InTime(travel, origin, job, readyAt, Target(travel, origin, job, readyAt))
  {
    EndingIff(travel, origin, job, readyAt);
    DriveIsHonest(travel, origin, job, readyAt);
  }

  /** The drive to stop `i` is in time for its planned start. */
  predicate LegInTime(
    travel: Travel, position: Location, clock: Moment, jobs: seq<Job>, starts: seq<Moment>, i: nat)
    requires i < |jobs| == |starts|
  {
    InTime(travel, OriginOf(position, jobs, i), jobs[i], ReadyFor(clock, Walk(travel, position, clock, jobs), i),
        starts[i])
  }

  /** If no leg ever exceeds what the planner allowed for it and no search runs out too late, every
      stop is reached no later than its planned start. */
  lemma {:induction false} NeverLaterThanPlanned(
    travel: Travel, position: Location, clock: Moment, jobs: seq<Job>, starts: seq<Moment>, i: nat)
    requires RoomForLegs(travel, position, clock, jobs, starts)
    requires AllSuit(jobs, starts)
    requires i < |jobs|
    requires forall k: nat :: k <= i ==> LegInTime(travel, position, clock, jobs, starts, k)
    ensures Walk(travel, position, clock, jobs)[i].arrival <= starts[i]
    decreases i
  {
    var ready := ReadyFor(clock, Walk(travel, position, clock, jobs), i);
    var origin := OriginOf(position, jobs, i);
    if i > 0 {
      NeverLaterThanPlanned(travel, position, clock, jobs, starts, i - 1);
    }
    OnTimeHasRoom(travel, position, clock, jobs, starts, i);
    WalkStepwise(travel, position, clock, jobs, i);
    assert LegInTime(travel, position, clock, jobs, starts, i);
    DriveIsOnTime(travel, origin, jobs[i], ready, starts[i]);
  }

  /** Given room for every leg, the whole replay is on time exactly when no search runs out too late. */
  lemma ReplayOnTimeIff(travel: Travel, position: Location, clock: Moment, jobs: seq<Job>, starts: seq<Moment>)
    requires RoomForLegs(travel, position, clock, jobs, starts)
    requires AllSuit(jobs, starts)
    ensures (forall k :: 0 <= k < |jobs| ==> Walk(travel, position, clock, jobs)[k].arrival <= starts[k]) <==>
            (forall k: nat :: k < |jobs| ==> LegInTime(travel, position, clock, jobs, starts, k))
  {
    var stops := Walk(travel, position, clock, jobs);
    if forall k :: 0 <= k < |jobs| ==> stops[k].arrival <= starts[k] {
      forall k: nat | k < |jobs| ensures LegInTime(travel, position, clock, jobs, starts, k) {
        OnTimeLegIsInTime(travel, position, clock, jobs, starts, k);
      }
    } else {
      var i :| 0 <= i < |jobs| && stops[i].arrival > starts[i];
      if forall k: nat :: k < |jobs| ==> LegInTime(travel, position, clock, jobs, starts, k) {
        NeverLaterThanPlanned(travel, position, clock, jobs, starts, i);
      }
    }
  }

  lemma OnTimeLegIsInTime(
    travel: Travel, position: Location, clock: Moment, jobs: seq<Job>, starts: seq<Moment>, k: nat)
    requires RoomForLegs(travel, position, clock, jobs, starts) && k < |jobs|
    requires StartSuits(jobs[k], starts[k])
    requires Walk(travel, position, clock, jobs)[k].arrival <= starts[k]
    requires k > 0 ==> Walk(travel, position, clock, jobs)[k - 1].arrival <= starts[k - 1]
    ensures LegInTime(travel, position, clock, jobs, starts, k)
  {
    var ready := ReadyFor(clock, Walk(travel, position, clock, jobs), k);
    var origin := OriginOf(position, jobs, k);
    WalkStepwise(travel, position, clock, jobs, k);
    OnTimeHasRoom(travel, position, clock, jobs, starts, k);
    DriveIsOnTime(travel, origin, jobs[k], ready, starts[k]);
  }

  /** Running out of rounds is what the guarantee cannot survive: roads that alternate between
      slow and quick push the arrival past a start that left room for the slowest leg. */
  lemma UnsettledRoadsCanBeLate()
    ensures exists travel: Travel, origin: Location, job: Job, start: Moment ::
              && (forall t :: travel(origin, job.location, t).minutes <= start)
              && StartSuits(job, start)
              && DepartAndArrive(travel, origin, job, 0).ending.Exhausted?
              && DepartAndArrive(travel, origin, job, 0).arrival > start
  {
    var origin := Location(0.0, 0.0);
    var job := Job("j", "", Location(1.0, 1.0), None, {}, 1, 60, [], [Window(100, 160, Hard)], Provisional, 0, 0, 0);
    // Quick only for departures in the middle of the wait.
    var travel: Travel := (a: Location, b: Location, t: Moment) => if 40 <= t <= 60 then Leg(10, 0.0) else Leg(50, 0.0);
    assert job.windows[..0] == [];
    assert BestStart(job.windows, 60, 50) == Some(100);
    assert EarliestStart(job, 50) == 100;
    assert Search(travel, origin, job, 0, 50, 3) == Search(travel, origin, job, 0, 90, 2);
    assert Search(travel, origin, job, 0, 90, 2) == Search(travel, origin, job, 0, 50, 1);
    assert Search(travel, origin, job, 0, 50, 1) == Search(travel, origin, job, 0, 90, 0);
    assert DepartAndArrive(travel, origin, job, 0) == Drive(Leg(50, 0.0), 140, Exhausted);
    assert StartSuits(job, 100);
  }
}
