/** The invariant checker's loops, each proved to report nothing exactly when its invariant holds,
    and only to report what is really wrong (domain/invariants.py). */
module Checker {
  import opened Collections
  import opened Domain
  import opened Invariants

  datatype Code =
    | WorkerDoubleBooked | VanDoubleBooked | WorkerUnavailable | VanUnavailable
    | HardWindowViolated | ConfirmedWindowMoved | ScheduledBeforeRequest
    | MissingCertification | CrewSizeMismatch | VanCapacityExceeded
    | TravelTimeInconsistent | OutsideWorkingHours | MaterialsUnavailable
    | LockedJobMoved | DuplicateJobAssignment | UnknownEntityReference

  datatype Violation = Violation(
    code: Code,
    jobId: Option<JobId>,
    crewId: Option<string>,
    workerId: Option<WorkerId>,
    vanId: Option<VanId>,
    onDate: Option<Day>)

  function On(code: Code, route: Route): Violation {
    Violation(code, None, Some(route.crewId), None, None, Some(route.date))
  }

  // ------------------------------------------------------------ references

  predicate UnknownReference(v: Violation, route: Route, world: World) {
    && v.code.UnknownEntityReference?
    && (|| (v.workerId.Some? && v.workerId.value in route.workerIds && v.workerId.value !in world.workers)
        || (v.vanId == Some(route.vanId) && route.vanId !in world.vans)
        || (v.jobId.Some? && v.jobId.value in StopJobs(route.stops) && v.jobId.value !in world.jobs))
  }

  method CheckReferences(plan: Plan, world: World) returns (out: seq<Violation>)
    ensures out == [] <==> forall i :: 0 <= i < |plan.routes| ==> ReferencesOk(plan.routes[i], world)
    ensures forall v :: v in out ==> exists r :: r in plan.routes && UnknownReference(v, r, world)
  {
    out := [];
    for i := 0 to |plan.routes|
      invariant out == [] <==> forall k :: 0 <= k < i ==> ReferencesOk(plan.routes[k], world)
      invariant forall v :: v in out ==> exists r :: r in plan.routes && UnknownReference(v, r, world)
    {
      var route := plan.routes[i];
      var found := RouteReferences(route, world);
      out := out + found;
    }
  }

  method RouteReferences(route: Route, world: World) returns (out: seq<Violation>)
    ensures out == [] <==> ReferencesOk(route, world)
    ensures forall v :: v in out ==> UnknownReference(v, route, world)
  {
    out := [];
    for j := 0 to |route.workerIds|
      invariant out == [] <==> forall k :: 0 <= k < j ==> route.workerIds[k] in world.workers
      invariant forall v :: v in out ==> UnknownReference(v, route, world)
    {
      if route.workerIds[j] !in world.workers {
        out := out + [On(UnknownEntityReference, route).(workerId := Some(route.workerIds[j]))];
      }
    }
    ghost var workersKnown := out == [];
    if route.vanId !in world.vans {
      out := out + [On(UnknownEntityReference, route).(vanId := Some(route.vanId))];
    }
    for j := 0 to |route.stops|
      invariant out == [] <==>
        workersKnown && route.vanId in world.vans && forall k :: 0 <= k < j ==> route.stops[k].jobId in world.jobs
      invariant forall v :: v in out ==> UnknownReference(v, route, world)
    {
      var job := route.stops[j].jobId;
      assert StopJobs(route.stops)[j] == job;
      if job !in world.jobs {
        out := out + [On(UnknownEntityReference, route).(jobId := Some(job))];
      }
    }
  }

  // ------------------------------------------------------------ duplicates

  method CheckDuplicateAssignments(plan: Plan) returns (out: seq<Violation>)
    ensures out == [] <==> Distinct(RoutedJobs(plan.routes))
    ensures forall v :: v in out ==> v.code.DuplicateJobAssignment?
    ensures forall v :: v in out ==> v.jobId.Some? && Repeated(RoutedJobs(plan.routes), v.jobId.value)
  {
    out := [];
    var seen: map<JobId, string> := map[];
    for i := 0 to |plan.routes|
      invariant Listing(seen, RoutedJobs(plan.routes[..i]), out)
    {
      assert plan.routes[..i + 1][..i] == plan.routes[..i];
      seen, out := NoteRoute(seen, RoutedJobs(plan.routes[..i]), out, plan.routes[i]);
    }
    assert plan.routes[..|plan.routes|] == plan.routes;
  }

  ghost predicate Repeated(s: seq<JobId>, x: JobId) {
    exists i, j :: 0 <= i < j < |s| && s[i] == s[j] == x
  }

  /** The state of the duplicate check after the jobs in `listed`. */
  ghost predicate Listing(seen: map<JobId, string>, listed: seq<JobId>, out: seq<Violation>) {
    && (forall id :: id in seen <==> id in listed)
    && (out == [] <==> Distinct(listed))
    && (forall v :: v in out ==> v.code.DuplicateJobAssignment? && v.jobId.Some? && Repeated(listed, v.jobId.value))
  }

  lemma RepeatedSnoc(s: seq<JobId>, x: JobId)
    ensures x in s ==> Repeated(s + [x], x)
    ensures forall y :: Repeated(s, y) ==> Repeated(s + [x], y)
  {
    var t := s + [x];
    if x in s {
      var i :| 0 <= i < |s| && s[i] == x;
      assert t[i] == t[|s|] == x;
    }
    forall y | Repeated(s, y) ensures Repeated(t, y) {
      var i, j :| 0 <= i < j < |s| && s[i] == s[j] == y;
      assert t[i] == t[j] == y;
    }
  }

  method NoteRoute(seen: map<JobId, string>, ghost listed: seq<JobId>, out: seq<Violation>, route: Route)
    returns (seenNow: map<JobId, string>, outNow: seq<Violation>)
    requires Listing(seen, listed, out)
    ensures Listing(seenNow, listed + StopJobs(route.stops), outNow)
  {
    seenNow, outNow := seen, out;
    ghost var now := listed;
    for j := 0 to |route.stops|
      invariant now == listed + StopJobs(route.stops)[..j]
      invariant Listing(seenNow, now, outNow)
    {
      var job := route.stops[j].jobId;
      DistinctSnoc(now, job);
      RepeatedSnoc(now, job);
      assert StopJobs(route.stops)[..j + 1] == StopJobs(route.stops)[..j] + [job];
      if job in seenNow {
        outNow := outNow + [On(DuplicateJobAssignment, route).(jobId := Some(job))];
      } else {
        seenNow := seenNow[job := route.crewId];
      }
      now := now + [job];
    }
    assert StopJobs(route.stops)[..|route.stops|] == StopJobs(route.stops);
  }

  lemma DistinctSnoc(s: seq<JobId>, x: JobId)
    ensures Distinct(s + [x]) <==> Distinct(s) && x !in s
  {
    if Distinct(s + [x]) {
      forall i, j | 0 <= i < j < |s| ensures s[i] != s[j] {
        assert (s + [x])[i] != (s + [x])[j];
      }
      forall i | 0 <= i < |s| ensures s[i] != x {
        assert (s + [x])[i] != (s + [x])[|s|];
      }
    }
  }

  // --------------------------------------------------------------- fitness

  predicate UnfitCrew(v: Violation, route: Route, world: World) {
    exists stop :: stop in route.stops && stop.jobId in world.jobs && v.jobId == Some(world.jobs[stop.jobId].id) &&
      match v.code
      case MissingCertification => !(world.jobs[stop.jobId].requiredCertifications <= Held(world, route.workerIds))
      case CrewSizeMismatch => |route.workerIds| < world.jobs[stop.jobId].crewSize
      case _ => false
  }

  method CheckCrewFitness(plan: Plan, world: World) returns (out: seq<Violation>)
    ensures out == [] <==> forall i :: 0 <= i < |plan.routes| ==> CrewFit(plan.routes[i], world)
    ensures forall v :: v in out ==> exists r :: r in plan.routes && UnfitCrew(v, r, world)
  {
    out := [];
    for i := 0 to |plan.routes|
      invariant out == [] <==> forall k :: 0 <= k < i ==> CrewFit(plan.routes[k], world)
      invariant forall v :: v in out ==> exists r :: r in plan.routes && UnfitCrew(v, r, world)
    {
      var found := RouteFitness(plan.routes[i], world);
      out := out + found;
    }
  }

  method RouteFitness(route: Route, world: World) returns (out: seq<Violation>)
    ensures out == [] <==> CrewFit(route, world)
    ensures forall v :: v in out ==> UnfitCrew(v, route, world)
  {
    var held: set<Certification> := {};
    for j := 0 to |route.workerIds|
      invariant held == Held(world, route.workerIds[..j])
    {
      var w := route.workerIds[j];
      assert route.workerIds[..j + 1] == route.workerIds[..j] + [w];
      if w in world.workers {
        held := held + world.workers[w].certifications;
      }
    }
    assert route.workerIds[..|route.workerIds|] == route.workerIds;
    out := [];
    for j := 0 to |route.stops|
      invariant out == [] <==> forall k :: 0 <= k < j ==> StopFit(route.stops[k], route, world)
      invariant forall v :: v in out ==> UnfitCrew(v, route, world)
    {
      var stop := route.stops[j];
      if stop.jobId in world.jobs {
        var job := world.jobs[stop.jobId];
        if !(job.requiredCertifications <= held) {
          out := out + [On(MissingCertification, route).(jobId := Some(job.id))];
        }
        if |route.workerIds| < job.crewSize {
          out := out + [On(CrewSizeMismatch, route).(jobId := Some(job.id))];
        }
      }
    }
  }

  // ----------------------------------------------------------- exclusivity

  type Bookings = map<string, seq<Span>>

  /** The bookings are those of the routes' claims, under the ids claimed. */
  ghost predicate Records(booked: Bookings, kind: Resource, routes: seq<Route>) {
    forall id, s :: s in Booked(booked, id) <==> Claimed(kind, routes, id, s)
  }

  function Booked(booked: Bookings, id: string): seq<Span> { GetOr(booked, id, []) }

  ghost predicate Claimed(kind: Resource, routes: seq<Route>, id: string, s: Span) {
    exists i :: 0 <= i < |routes| && id in Claims(kind, routes[i]) && RouteSpan(routes[i]) == Some(s)
  }

  function DoubleBooked(kind: Resource): Code {
    if kind.OfWorkers? then WorkerDoubleBooked else VanDoubleBooked
  }

  /** Books every claim of a route, reporting one violation per earlier overlapping booking. */
  method Book(booked: Bookings, kind: Resource, route: Route, span: Span)
    returns (out: seq<Violation>, now: Bookings)
    ensures forall id, s :: s in Booked(now, id) <==>
              s in Booked(booked, id) || (id in Claims(kind, route) && s == span)
    ensures out == [] <==>
              && (forall id, s :: id in Claims(kind, route) && s in Booked(booked, id) ==> !Overlaps(span, s))
              && (Distinct(Claims(kind, route)) || !Overlaps(span, span))
    ensures forall v :: v in out ==> v.code == DoubleBooked(kind)
  {
    var ids := Claims(kind, route);
    out, now := [], booked;
    for j := 0 to |ids|
      invariant forall id, s :: s in Booked(now, id) <==> s in Booked(booked, id) || (id in ids[..j] && s == span)
      invariant out == [] <==>
        && (forall id, s :: id in ids[..j] && s in Booked(booked, id) ==> !Overlaps(span, s))
        && (Distinct(ids[..j]) || !Overlaps(span, span))
      invariant forall v :: v in out ==> v.code == DoubleBooked(kind)
    {
      var id := ids[j];
      var earlier := Booked(now, id);
      var v := if kind.OfWorkers? then On(WorkerDoubleBooked, route).(workerId := Some(id))
               else On(VanDoubleBooked, route).(vanId := Some(id));
      var clashes: seq<Violation> := [];
      for k := 0 to |earlier|
        invariant clashes == [] <==> forall m :: 0 <= m < k ==> !Overlaps(span, earlier[m])
        invariant forall c :: c in clashes ==> c.code == DoubleBooked(kind)
      {
        if Overlaps(span, earlier[k]) {
          clashes := clashes + [v];
        }
      }
      assert clashes == [] <==> forall s :: s in earlier ==> !Overlaps(span, s);
      DistinctSnoc(ids[..j], id);
      assert ids[..j + 1] == ids[..j] + [id];
      out := out + clashes;
      BookedOnce(now, id, span);
      ghost var was := now;
      now := now[id := earlier + [span]];
      forall other, s
        ensures s in Booked(now, other) <==> s in Booked(booked, other) || (other in ids[..j + 1] && s == span)
      {
        assert s in Booked(now, other) <==> s in Booked(was, other) || (other == id && s == span);
        assert s in Booked(was, other) <==> s in Booked(booked, other) || (other in ids[..j] && s == span);
        assert other in ids[..j + 1] <==> other in ids[..j] || other == id;
      }
    }
    assert ids[..|ids|] == ids;
  }

  lemma BookedOnce(booked: Bookings, id: string, span: Span)
    ensures forall other, s :: s in Booked(booked[id := Booked(booked, id) + [span]], other) <==>
              s in Booked(booked, other) || (other == id && s == span)
  {
    var now := booked[id := Booked(booked, id) + [span]];
    forall other, s ensures s in Booked(now, other) <==> s in Booked(booked, other) || (other == id && s == span) {
      if other == id {
        assert Booked(now, id) == Booked(booked, id) + [span];
      } else {
        assert Booked(now, other) == Booked(booked, other);
      }
    }
  }

  ghost predicate ApartFrom(kind: Resource, routes: seq<Route>, route: Route) {
    && !SelfClash(kind, route)
    && forall i :: 0 <= i < |routes| ==> !Clash(kind, routes[i], route)
  }

  lemma RecordedApart(booked: Bookings, kind: Resource, routes: seq<Route>, route: Route, span: Span)
    requires Records(booked, kind, routes) && RouteSpan(route) == Some(span)
    ensures (&& (forall id, s :: id in Claims(kind, route) && s in Booked(booked, id) ==> !Overlaps(span, s))
             && (Distinct(Claims(kind, route)) || !Overlaps(span, span)))
            <==> ApartFrom(kind, routes, route)
  {
    if forall id, s :: id in Claims(kind, route) && s in Booked(booked, id) ==> !Overlaps(span, s) {
      forall i | 0 <= i < |routes| && RouteSpan(routes[i]).Some? && Shares(kind, routes[i], route)
        ensures !Overlaps(RouteSpan(routes[i]).value, span)
      {
        var x, y :| 0 <= x < |Claims(kind, routes[i])| && 0 <= y < |Claims(kind, route)|
                    && Claims(kind, routes[i])[x] == Claims(kind, route)[y];
        var id := Claims(kind, route)[y];
        assert id in Claims(kind, routes[i]) && id in Claims(kind, route);
        var s: Span := RouteSpan(routes[i]).value;
        assert Claimed(kind, routes, id, s);
        assert s in Booked(booked, id);
        assert !Overlaps(span, s);
      }
    }
    if ApartFrom(kind, routes, route) {
      forall id, s | id in Claims(kind, route) && s in Booked(booked, id) ensures !Overlaps(span, s) {
        assert Claimed(kind, routes, id, s);
        var i :| 0 <= i < |routes| && id in Claims(kind, routes[i]) && RouteSpan(routes[i]) == Some(s);
        assert Shares(kind, routes[i], route);
        assert !Clash(kind, routes[i], route);
      }
    }
  }

  lemma ExclusiveSnoc(kind: Resource, routes: seq<Route>, route: Route)
    ensures Exclusive(kind, routes + [route]) <==> Exclusive(kind, routes) && ApartFrom(kind, routes, route)
  {
    var all := routes + [route];
    assert all[|routes|] == route;
    if Exclusive(kind, all) {
      forall i | 0 <= i < |routes| ensures !SelfClash(kind, routes[i]) { assert all[i] == routes[i]; }
      forall i, j | 0 <= i < j < |routes| ensures !Clash(kind, routes[i], routes[j]) {
        assert all[i] == routes[i] && all[j] == routes[j];
      }
      forall i | 0 <= i < |routes| ensures !Clash(kind, routes[i], route) { assert all[i] == routes[i]; }
    }
  }

  lemma RecordsSnoc(booked: Bookings, now: Bookings, kind: Resource, routes: seq<Route>, route: Route, span: Span)
    requires Records(booked, kind, routes) && RouteSpan(route) == Some(span)
    requires forall id, s :: s in Booked(now, id) <==>
               s in Booked(booked, id) || (id in Claims(kind, route) && s == span)
    ensures Records(now, kind, routes + [route])
  {
    forall id, s ensures Claimed(kind, routes + [route], id, s) <==>
                         Claimed(kind, routes, id, s) || (id in Claims(kind, route) && s == span)
    {
      ClaimedSnoc(kind, routes, route, id, s);
    }
  }

  lemma ClaimedSnoc(kind: Resource, routes: seq<Route>, route: Route, id: string, s: Span)
    ensures Claimed(kind, routes + [route], id, s) <==>
            Claimed(kind, routes, id, s) || (id in Claims(kind, route) && RouteSpan(route) == Some(s))
  {
    var all := routes + [route];
    assert all[|routes|] == route;
    if Claimed(kind, routes, id, s) {
      var i :| 0 <= i < |routes| && id in Claims(kind, routes[i]) && RouteSpan(routes[i]) == Some(s);
      assert all[i] == routes[i];
    }
  }

  lemma RecordsSkip(booked: Bookings, kind: Resource, routes: seq<Route>, route: Route)
    requires Records(booked, kind, routes) && RouteSpan(route).None?
    ensures Records(booked, kind, routes + [route])
  {
    forall id, s ensures Claimed(kind, routes + [route], id, s) <==> Claimed(kind, routes, id, s) {
      ClaimedSnoc(kind, routes, route, id, s);
    }
  }

  /** Takes one more route into account for one kind of resource. */
  method Admit(booked: Bookings, kind: Resource, ghost prior: seq<Route>, route: Route)
    returns (out: seq<Violation>, now: Bookings)
    requires Records(booked, kind, prior)
    ensures Records(now, kind, prior + [route])
    ensures out == [] <==> ApartFrom(kind, prior, route)
    ensures forall v :: v in out ==> v.code == DoubleBooked(kind)
  {
    var span := RouteSpan(route);
    if span.None? {
      RecordsSkip(booked, kind, prior, route);
      return [], booked;
    }
    out, now := Book(booked, kind, route, span.value);
    RecordedApart(booked, kind, prior, route, span.value);
    RecordsSnoc(booked, now, kind, prior, route, span.value);
  }

  /** The bookings after some routes, of both kinds, and what was reported on the way. */
  ghost predicate Ledger(workers: Bookings, vans: Bookings, prior: seq<Route>, out: seq<Violation>) {
    && Records(workers, OfWorkers, prior)
    && Records(vans, OfVans, prior)
    && (out == [] <==> Exclusive(OfWorkers, prior) && Exclusive(OfVans, prior))
    && (forall v :: v in out ==> v.code.WorkerDoubleBooked? || v.code.VanDoubleBooked?)
  }

  method AdmitBoth(workers: Bookings, vans: Bookings, ghost prior: seq<Route>, out: seq<Violation>, route: Route)
    returns (workersNow: Bookings, vansNow: Bookings, outNow: seq<Violation>)
    requires Ledger(workers, vans, prior, out)
    ensures Ledger(workersNow, vansNow, prior + [route], outNow)
  {
    var byWorker, byVan;
    byWorker, workersNow := Admit(workers, OfWorkers, prior, route);
    byVan, vansNow := Admit(vans, OfVans, prior, route);
    ExclusiveSnoc(OfWorkers, prior, route);
    ExclusiveSnoc(OfVans, prior, route);
    outNow := out + byWorker + byVan;
  }

  method CheckResourceExclusivity(plan: Plan) returns (out: seq<Violation>)
    ensures out == [] <==> Exclusive(OfWorkers, plan.routes) && Exclusive(OfVans, plan.routes)
    ensures forall v :: v in out ==> v.code.WorkerDoubleBooked? || v.code.VanDoubleBooked?
  {
    out := [];
    var workers: Bookings, vans: Bookings := map[], map[];
    for i := 0 to |plan.routes|
      invariant Ledger(workers, vans, plan.routes[..i], out)
    {
      assert plan.routes[..i + 1] == plan.routes[..i] + [plan.routes[i]];
      workers, vans, out := AdmitBoth(workers, vans, plan.routes[..i], out, plan.routes[i]);
    }
    assert plan.routes[..|plan.routes|] == plan.routes;
  }

  // ---------------------------------------------------------- availability

  predicate DownResource(v: Violation, route: Route, world: World) {
    RouteSpan(route).Some? &&
    var (start, end) := RouteSpan(route).value;
    match v.code
    case WorkerUnavailable =>
      v.workerId.Some? && v.workerId.value in route.workerIds && !IsWorkerAvailable(world, v.workerId.value, start, end)
    case VanUnavailable => v.vanId == Some(route.vanId) && !IsVanAvailable(world, route.vanId, start, end)
    case _ => false
  }

  method CheckResourceAvailability(plan: Plan, world: World) returns (out: seq<Violation>)
    ensures out == [] <==> forall i :: 0 <= i < |plan.routes| ==> ResourcesAvailable(plan.routes[i], world)
    ensures forall v :: v in out ==> exists r :: r in plan.routes && DownResource(v, r, world)
  {
    out := [];
    for i := 0 to |plan.routes|
      invariant out == [] <==> forall k :: 0 <= k < i ==> ResourcesAvailable(plan.routes[k], world)
      invariant forall v :: v in out ==> exists r :: r in plan.routes && DownResource(v, r, world)
    {
      var found := RouteAvailability(plan.routes[i], world);
      out := out + found;
    }
  }

  method RouteAvailability(route: Route, world: World) returns (out: seq<Violation>)
    ensures out == [] <==> ResourcesAvailable(route, world)
    ensures forall v :: v in out ==> DownResource(v, route, world)
  {
    out := [];
    var span := RouteSpan(route);
    if span.None? {
      return;
    }
    var (start, end) := span.value;
    for j := 0 to |route.workerIds|
      invariant out == [] <==>
        forall k :: 0 <= k < j && route.workerIds[k] in world.workers ==>
          IsWorkerAvailable(world, route.workerIds[k], start, end)
      invariant forall v :: v in out ==> DownResource(v, route, world)
    {
      var w := route.workerIds[j];
      if w in world.workers && !IsWorkerAvailable(world, w, start, end) {
        out := out + [On(WorkerUnavailable, route).(workerId := Some(w))];
      }
    }
    if route.vanId in world.vans && !IsVanAvailable(world, route.vanId, start, end) {
      out := out + [On(VanUnavailable, route).(vanId := Some(route.vanId))];
    }
  }

  // ---------------------------------------------------------------- travel

  method CheckTravelConsistency(plan: Plan, world: World, travel: Travel, config: Config)
    returns (out: seq<Violation>)
    ensures out == [] <==> forall i :: 0 <= i < |plan.routes| ==> LegsOk(plan.routes[i], world, travel, config.slack)
    ensures forall v :: v in out ==> v.code.TravelTimeInconsistent?
  {
    out := [];
    for i := 0 to |plan.routes|
      invariant out == [] <==> forall k :: 0 <= k < i ==> LegsOk(plan.routes[k], world, travel, config.slack)
      invariant forall v :: v in out ==> v.code.TravelTimeInconsistent?
    {
      var found := RouteLegs(plan.routes[i], world, travel, config.slack);
      out := out + found;
    }
  }

  method RouteLegs(route: Route, world: World, travel: Travel, slack: nat) returns (out: seq<Violation>)
    ensures out == [] <==> LegsOk(route, world, travel, slack)
    ensures forall v :: v in out ==> v.code.TravelTimeInconsistent?
  {
    out := [];
    var previous: Option<Stop> := None;
    for j := 0 to |route.stops|
      invariant previous == Before(KnownStops(route.stops[..j], world), |KnownStops(route.stops[..j], world)|)
      invariant out == [] <==> LegsHold(route, KnownStops(route.stops[..j], world), world, travel, slack)
      invariant forall v :: v in out ==> v.code.TravelTimeInconsistent?
    {
      var stop := route.stops[j];
      assert route.stops[..j + 1][..j] == route.stops[..j];
      if stop.jobId in world.jobs {
        var found := OneLeg(route, previous, stop, world, travel, slack);
        LegsHoldSnoc(route, KnownStops(route.stops[..j], world), stop, world, travel, slack);
        out := out + found;
        previous := Some(stop);
      }
    }
    assert route.stops[..|route.stops|] == route.stops;
  }

  lemma LegsHoldSnoc(route: Route, known: seq<Stop>, stop: Stop, world: World, travel: Travel, slack: nat)
    requires forall i :: 0 <= i < |known| ==> known[i].jobId in world.jobs
    requires stop.jobId in world.jobs
    ensures LegsHold(route, known + [stop], world, travel, slack) <==>
            LegsHold(route, known, world, travel, slack)
            && LegOk(route, Before(known, |known|), stop, world, travel, slack)
  {
    var all := known + [stop];
    assert all[|known|] == stop && Before(all, |known|) == Before(known, |known|);
    forall i | 0 <= i < |known|
      ensures LegOk(route, Before(all, i), all[i], world, travel, slack)
         <==> LegOk(route, Before(known, i), known[i], world, travel, slack)
    {
      assert all[i] == known[i] && Before(all, i) == Before(known, i);
    }
  }

  method OneLeg(route: Route, previous: Option<Stop>, stop: Stop, world: World, travel: Travel, slack: nat)
    returns (out: seq<Violation>)
    requires stop.jobId in world.jobs
    requires previous.Some? ==> previous.value.jobId in world.jobs
    ensures out == [] <==> LegOk(route, previous, stop, world, travel, slack)
    ensures forall v :: v in out ==> v.code.TravelTimeInconsistent? && v.jobId.Some?
  {
    out := [];
    var job := world.jobs[stop.jobId];
    var origin: Option<Location> := None;
    var departAt := stop.arrival - stop.travelMinutes;
    if previous.None? {
      if route.vanId in world.vans {
        origin := Some(world.vans[route.vanId].homeDepot);
      }
    } else {
      origin := Some(world.jobs[previous.value.jobId].location);
      departAt := previous.value.departure;
      if stop.arrival < previous.value.departure {
        out := out + [On(TravelTimeInconsistent, route).(jobId := Some(stop.jobId))];
      }
    }
    if origin.Some? {
      var expected := travel(origin.value, job.location, departAt);
      if stop.arrival < departAt + expected.minutes - slack {
        out := out + [On(TravelTimeInconsistent, route).(jobId := Some(stop.jobId))];
      }
    }
    if stop.departure - stop.arrival < job.duration {
      out := out + [On(TravelTimeInconsistent, route).(jobId := Some(job.id))];
    }
  }

  // --------------------------------------------------------------- windows

  predicate BrokenWindow(v: Violation, route: Route, world: World, released: set<JobId>) {
    exists stop :: stop in route.stops && stop.jobId in world.jobs && v.jobId == Some(world.jobs[stop.jobId].id) &&
      var job := world.jobs[stop.jobId];
      var placed := exists i :: 0 <= i < |job.windows| && Satisfies(job, job.windows[i], stop, released);
      match v.code
      case ConfirmedWindowMoved => !placed && job.commitment.Confirmed?
      case HardWindowViolated => !placed && !job.commitment.Confirmed?
      case ScheduledBeforeRequest => stop.arrival < job.requestedAt
      case _ => false
  }

  method MatchingWindow(job: Job, stop: Stop, released: set<JobId>) returns (r: Option<Window>)
    ensures r.None? <==> forall i :: 0 <= i < |job.windows| ==> !Satisfies(job, job.windows[i], stop, released)
    ensures r.Some? ==> exists i :: 0 <= i < |job.windows| && r.value == job.windows[i]
                         && Satisfies(job, job.windows[i], stop, released)
                         && forall k :: 0 <= k < i ==> !Satisfies(job, job.windows[k], stop, released)
  {
    for i := 0 to |job.windows|
      invariant forall k :: 0 <= k < i ==> !Satisfies(job, job.windows[k], stop, released)
    {
      var w := job.windows[i];
      if stop.arrival < w.start {
        continue;
      }
      if IsBinding(job, w, released) && stop.departure > w.end {
        continue;
      }
      return Some(w);
    }
    return None;
  }

  method CheckWindows(plan: Plan, world: World, config: Config) returns (out: seq<Violation>)
    ensures out == [] <==> forall i :: 0 <= i < |plan.routes| ==> WindowsOk(plan.routes[i], world, config.released)
    ensures forall v :: v in out ==> exists r :: r in plan.routes && BrokenWindow(v, r, world, config.released)
  {
    out := [];
    for i := 0 to |plan.routes|
      invariant out == [] <==> forall k :: 0 <= k < i ==> WindowsOk(plan.routes[k], world, config.released)
      invariant forall v :: v in out ==> exists r :: r in plan.routes && BrokenWindow(v, r, world, config.released)
    {
      var found := RouteWindows(plan.routes[i], world, config.released);
      out := out + found;
    }
  }

  method RouteWindows(route: Route, world: World, released: set<JobId>) returns (out: seq<Violation>)
    ensures out == [] <==> WindowsOk(route, world, released)
    ensures forall v :: v in out ==> BrokenWindow(v, route, world, released)
  {
    out := [];
    for j := 0 to |route.stops|
      invariant out == [] <==> forall k :: 0 <= k < j ==> StopInWindow(route.stops[k], world, released)
      invariant forall v :: v in out ==> BrokenWindow(v, route, world, released)
    {
      var stop := route.stops[j];
      if stop.jobId !in world.jobs || world.jobs[stop.jobId].windows == [] {
        continue;
      }
      var job := world.jobs[stop.jobId];
      var window := MatchingWindow(job, stop, released);
      if window.None? {
        var code := if job.commitment.Confirmed? then ConfirmedWindowMoved else HardWindowViolated;
        out := out + [On(code, route).(jobId := Some(job.id))];
      }
      if stop.arrival < job.requestedAt {
        out := out + [On(ScheduledBeforeRequest, route).(jobId := Some(job.id))];
      }
    }
  }

  // ----------------------------------------------------------------- hours

  method CheckWorkingHours(plan: Plan, world: World, config: Config) returns (out: seq<Violation>)
    ensures out == [] <==> forall i :: 0 <= i < |plan.routes| ==> HoursOk(plan.routes[i], world, config)
    ensures forall v :: v in out ==> v.code.OutsideWorkingHours? && v.workerId.Some?
  {
    out := [];
    for i := 0 to |plan.routes|
      invariant out == [] <==> forall k :: 0 <= k < i ==> HoursOk(plan.routes[k], world, config)
      invariant forall v :: v in out ==> v.code.OutsideWorkingHours? && v.workerId.Some?
    {
      var found := RouteHours(plan.routes[i], world, config);
      out := out + found;
    }
  }

  method RouteHours(route: Route, world: World, config: Config) returns (out: seq<Violation>)
    ensures out == [] <==> HoursOk(route, world, config)
    ensures forall v :: v in out ==> v.code.OutsideWorkingHours? && v.workerId.Some?
  {
    out := [];
    var span := RouteSpan(route);
    if span.None? {
      return;
    }
    for j := 0 to |route.workerIds|
      invariant out == [] <==>
        forall k :: 0 <= k < j && route.workerIds[k] in world.workers ==>
          WithinHours(world.workers[route.workerIds[k]], span.value, config)
      invariant forall v :: v in out ==> v.code.OutsideWorkingHours? && v.workerId.Some?
    {
      if route.workerIds[j] !in world.workers {
        continue;
      }
      var worker := world.workers[route.workerIds[j]];
      var v := On(OutsideWorkingHours, route).(workerId := Some(route.workerIds[j]));
      var hours := HoursFor(worker, Weekday(DayOf(span.value.0)));
      if hours.None? {
        out := out + [v];
        continue;
      }
      if ClockOf(span.value.0) < hours.value.start {
        out := out + [v];
      }
      if ClockOf(span.value.1) > hours.value.end && !(config.allowOvertime && worker.overtimeEligible) {
        out := out + [v];
      }
    }
  }

  // -------------------------------------------------------------- capacity

  method CheckVanCapacity(plan: Plan, world: World) returns (out: seq<Violation>)
    ensures out == [] <==> forall i :: 0 <= i < |plan.routes| ==> CapacityOk(plan.routes[i], world)
    ensures forall v :: v in out ==> v.code.VanCapacityExceeded? && v.vanId.Some?
  {
    out := [];
    for i := 0 to |plan.routes|
      invariant out == [] <==> forall k :: 0 <= k < i ==> CapacityOk(plan.routes[k], world)
      invariant forall v :: v in out ==> v.code.VanCapacityExceeded? && v.vanId.Some?
    {
      var found := RouteCapacity(plan.routes[i], world);
      out := out + found;
    }
  }

  /** Adds a job's off-the-shelf parts to a tally that holds only parts some job needs. */
  method Tally(needed: map<PartCode, int>, materials: seq<Material>) returns (r: map<PartCode, int>)
    requires forall p :: p in needed ==> needed[p] > 0
    ensures forall p :: GetOr(r, p, 0) == GetOr(needed, p, 0) + DemandOf(materials, p)
    ensures forall p :: p in r ==> r[p] > 0
  {
    r := needed;
    for i := 0 to |materials|
      invariant forall p :: GetOr(r, p, 0) == GetOr(needed, p, 0) + DemandOf(materials[..i], p)
      invariant forall p :: p in r ==> r[p] > 0
    {
      var m := materials[i];
      assert materials[..i + 1][..i] == materials[..i];
      if m.inStock {
        r := r[m.partCode := GetOr(r, m.partCode, 0) + m.quantity];
      }
    }
    assert materials[..|materials|] == materials;
  }

  method Loads(stops: seq<Stop>, world: World) returns (panes: nat, needed: map<PartCode, int>)
    ensures panes == PanesOn(stops, world)
    ensures forall p :: GetOr(needed, p, 0) == DemandOn(stops, world, p)
    ensures forall p :: p in needed ==> needed[p] > 0
  {
    panes, needed := 0, map[];
    for j := 0 to |stops|
      invariant panes == PanesOn(stops[..j], world)
      invariant forall p :: GetOr(needed, p, 0) == DemandOn(stops[..j], world, p)
      invariant forall p :: p in needed ==> needed[p] > 0
    {
      var stop := stops[j];
      assert stops[..j + 1][..j] == stops[..j];
      if stop.jobId in world.jobs {
        panes := panes + Panes(world.jobs[stop.jobId]);
        needed := Tally(needed, world.jobs[stop.jobId].materials);
      }
    }
    assert stops[..|stops|] == stops;
  }

  method RouteCapacity(route: Route, world: World) returns (out: seq<Violation>)
    ensures out == [] <==> CapacityOk(route, world)
    ensures forall v :: v in out ==> v.code.VanCapacityExceeded? && v.vanId.Some?
  {
    out := [];
    if route.vanId !in world.vans {
      return;
    }
    var van := world.vans[route.vanId];
    var panes, needed := Loads(route.stops, world);
    var v := On(VanCapacityExceeded, route).(vanId := Some(van.id));
    if panes > van.rackSlots {
      out := out + [v];
    }
    var parts := SortedKeys(needed.Keys);
    for j := 0 to |parts|
      invariant out == [] <==>
        && panes <= van.rackSlots
        && forall k :: 0 <= k < j ==> needed[parts[k]] <= GetOr(van.stock, parts[k], 0)
      invariant forall x :: x in out ==> x == v
    {
      assert parts[j] in parts;
      if GetOr(van.stock, parts[j], 0) < needed[parts[j]] {
        out := out + [v];
      }
    }
    assert (forall k :: 0 <= k < |parts| ==> needed[parts[k]] <= GetOr(van.stock, parts[k], 0))
      <==> (forall p :: p in needed ==> needed[p] <= GetOr(van.stock, p, 0)) by {
      forall p | p in needed ensures exists k :: 0 <= k < |parts| && parts[k] == p { assert p in parts; }
    }
    assert forall p :: p in needed <==> DemandOn(route.stops, world, p) > 0;
  }

  // ------------------------------------------------------------- materials

  predicate MissingParts(v: Violation, route: Route, world: World) {
    v.code.MaterialsUnavailable? &&
    exists stop :: stop in route.stops && stop.jobId in world.jobs && v.jobId == Some(world.jobs[stop.jobId].id)
      && !PartsExistBy(world.jobs[stop.jobId], route.date)
  }

  method CheckMaterials(plan: Plan, world: World) returns (out: seq<Violation>)
    ensures out == [] <==> forall i :: 0 <= i < |plan.routes| ==> MaterialsOk(plan.routes[i], world)
    ensures forall v :: v in out ==> exists r :: r in plan.routes && MissingParts(v, r, world)
  {
    out := [];
    for i := 0 to |plan.routes|
      invariant out == [] <==> forall k :: 0 <= k < i ==> MaterialsOk(plan.routes[k], world)
      invariant forall v :: v in out ==> exists r :: r in plan.routes && MissingParts(v, r, world)
    {
      var found := RouteMaterials(plan.routes[i], world);
      out := out + found;
    }
  }

  method RouteMaterials(route: Route, world: World) returns (out: seq<Violation>)
    ensures out == [] <==> MaterialsOk(route, world)
    ensures forall v :: v in out ==> MissingParts(v, route, world)
  {
    out := [];
    for j := 0 to |route.stops|
      invariant out == [] <==> forall k :: 0 <= k < j ==> MaterialsReady(route.stops[k], route.date, world)
      invariant forall v :: v in out ==> MissingParts(v, route, world)
    {
      var stop := route.stops[j];
      if stop.jobId !in world.jobs || world.jobs[stop.jobId].materials == [] {
        continue;
      }
      var job := world.jobs[stop.jobId];
      MaterialDayIff(job, route.date);
      if route.date < EarliestMaterialDay(job) {
        out := out + [On(MaterialsUnavailable, route).(jobId := Some(job.id))];
      }
    }
  }

  // ------------------------------------------------------------ entrypoint

  /** Nothing is reported exactly when every invariant holds. */
  method ValidatePlan(plan: Plan, world: World, travel: Travel, config: Config) returns (out: seq<Violation>)
    ensures out == [] <==> PlanOk(plan, world, travel, config)
  {
    var references := CheckReferences(plan, world);
    var duplicates := CheckDuplicateAssignments(plan);
    var fitness := CheckCrewFitness(plan, world);
    var exclusivity := CheckResourceExclusivity(plan);
    var availability := CheckResourceAvailability(plan, world);
    var legs := CheckTravelConsistency(plan, world, travel, config);
    var windows := CheckWindows(plan, world, config);
    var hours := CheckWorkingHours(plan, world, config);
    var capacity := CheckVanCapacity(plan, world);
    var materials := CheckMaterials(plan, world);
    out := references + duplicates + fitness + exclusivity + availability
           + legs + windows + hours + capacity + materials;
    assert |out| == |references| + |duplicates| + |fitness| + |exclusivity| + |availability|
                    + |legs| + |windows| + |hours| + |capacity| + |materials|;
    PlanOkByCheck(plan, world, travel, config);
  }

  // -------------------------------------------------------- against a baseline

  method ValidateAgainstBaseline(plan: Plan, baseline: Plan, world: World) returns (out: seq<Violation>)
    ensures out == [] <==> LockedUnmoved(plan.routes, baseline.routes, world)
    ensures forall v :: v in out ==> v.code.LockedJobMoved? && v.jobId.Some? && IsLocked(world, v.jobId.value)
  {
    out := [];
    for i := 0 to |baseline.routes|
      invariant out == [] <==> LockedUnmoved(plan.routes, baseline.routes[..i], world)
      invariant forall v :: v in out ==> v.code.LockedJobMoved? && v.jobId.Some? && IsLocked(world, v.jobId.value)
    {
      var route := baseline.routes[i];
      ghost var before := out;
      for j := 0 to |route.stops|
        invariant out == [] <==>
          before == [] && forall k :: 0 <= k < j && IsLocked(world, route.stops[k].jobId) ==>
                            Unmoved(plan.routes, route, route.stops[k])
        invariant forall v :: v in out ==> v.code.LockedJobMoved? && v.jobId.Some? && IsLocked(world, v.jobId.value)
      {
        var stop := route.stops[j];
        if !IsLocked(world, stop.jobId) {
          continue;
        }
        var found := StopFor(plan.routes, stop.jobId);
        if found.None? {
          out := out + [On(LockedJobMoved, route).(jobId := Some(stop.jobId), onDate := None)];
          continue;
        }
        var (newRoute, newStop) := found.value;
        if newStop.arrival != stop.arrival || SetOf(newRoute.workerIds) != SetOf(route.workerIds) {
          out := out + [On(LockedJobMoved, newRoute).(jobId := Some(stop.jobId), onDate := None)];
        }
      }
      assert forall k :: 0 <= k < i ==> baseline.routes[..i + 1][k] == baseline.routes[..i][k];
      assert baseline.routes[..i + 1][i] == route;
    }
    assert baseline.routes[..|baseline.routes|] == baseline.routes;
  }
}
