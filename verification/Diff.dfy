/** What changed between two plans, and whether a customer would notice
    (domain/diff.py, domain/autonomy.py). */
module Diff {
  import opened Collections
  import opened Domain

  datatype Placement = Placement(
    onDate: Day, crewId: string, vanId: VanId, workerIds: seq<WorkerId>, arrival: Moment, departure: Moment)

  type Placements = map<JobId, Placement>

  datatype ChangeKind = Added | Dropped | Rescheduled | Reassigned | Retimed

  datatype BlastRadius = Internal | CrewOnly | CustomerVisible

  datatype JobChange = JobChange(
    jobId: JobId,
    kind: ChangeKind,
    before: Option<Placement>,
    after: Option<Placement>,
    commitment: Commitment,
    customerName: string,
    promised: Option<Window>)

  datatype PlanDiff = PlanDiff(changes: seq<JobChange>, costDelta: int)

  // --------------------------------------------------------------- placements

  function Place(route: Route, stop: Stop): Placement {
    Placement(route.date, route.crewId, route.vanId, route.workerIds, stop.arrival, stop.departure)
  }

  function PlaceStops(route: Route, stops: seq<Stop>): Placements {
    if stops == [] then map[]
    else
      var last := stops[|stops| - 1];
      PlaceStops(route, stops[..|stops| - 1])[last.jobId := Place(route, last)]
  }

  /** Where each job sits; of several stops for one job the last one counts. */
  function PlacementsOf(routes: seq<Route>): Placements {
    if routes == [] then map[]
    else
      var route := routes[|routes| - 1];
      PlacementsOf(routes[..|routes| - 1]) + PlaceStops(route, route.stops)
  }

  /** Where the job's last stop is, in the last route that serves it. */
  predicate PlacedAt(routes: seq<Route>, job: JobId, p: Placement) {
    exists i :: 0 <= i < |routes| && LastStopAt(routes[i], routes[i].stops, job, p) && NotServed(routes, i + 1, job)
  }

  predicate LastStopAt(route: Route, stops: seq<Stop>, job: JobId, p: Placement) {
    exists j :: 0 <= j < |stops| && IsPlace(route, stops[j], job, p) && NoStop(stops, j + 1, job)
  }

  predicate NoStop(stops: seq<Stop>, start: nat, job: JobId) {
    forall j :: start <= j < |stops| ==> stops[j].jobId != job
  }

  predicate NotServed(routes: seq<Route>, start: nat, job: JobId) {
    forall i :: start <= i < |routes| ==> NoStop(routes[i].stops, 0, job)
  }

  predicate IsPlace(route: Route, stop: Stop, job: JobId, p: Placement) {
    && stop.jobId == job
    && p == Placement(route.date, route.crewId, route.vanId, route.workerIds, stop.arrival, stop.departure)
  }

  lemma {:induction false} StopsArePlaced(route: Route, stops: seq<Stop>, job: JobId)
    ensures job in PlaceStops(route, stops) <==> job in StopJobs(stops)
    ensures job in PlaceStops(route, stops) ==> LastStopAt(route, stops, job, PlaceStops(route, stops)[job])
    ensures job !in PlaceStops(route, stops) ==> NoStop(stops, 0, job)
    decreases |stops|
  {
    if stops != [] {
      var n := |stops| - 1;
      StopsArePlaced(route, stops[..n], job);
      assert StopJobs(stops) == StopJobs(stops[..n]) + [stops[n].jobId];
      assert forall j :: 0 <= j < n ==> stops[j] == stops[..n][j];
      if stops[n].jobId == job {
        assert IsPlace(route, stops[n], job, PlaceStops(route, stops)[job]) && NoStop(stops, n + 1, job);
      } else if job in PlaceStops(route, stops) {
        var p := PlaceStops(route, stops[..n])[job];
        var j :| 0 <= j < n && IsPlace(route, stops[..n][j], job, p) && NoStop(stops[..n], j + 1, job);
        assert IsPlace(route, stops[j], job, p) && NoStop(stops, j + 1, job);
      }
    }
  }

  /** Exactly the routed jobs are placed, each where its last stop is. */
  lemma {:induction false} PlacedWhereRouted(routes: seq<Route>, job: JobId)
    ensures job in PlacementsOf(routes) <==> job in RoutedJobs(routes)
    ensures job in PlacementsOf(routes) ==> PlacedAt(routes, job, PlacementsOf(routes)[job])
    decreases |routes|
  {
    if routes != [] {
      var n := |routes| - 1;
      PlacedWhereRouted(routes[..n], job);
      StopsArePlaced(routes[n], routes[n].stops, job);
      if job in PlacementsOf(routes) {
        var p := PlacementsOf(routes)[job];
        if job in PlaceStops(routes[n], routes[n].stops) {
          assert LastStopAt(routes[n], routes[n].stops, job, p) && NotServed(routes, n + 1, job);
        } else {
          var i :| 0 <= i < n && LastStopAt(routes[..n][i], routes[..n][i].stops, job, p)
                   && NotServed(routes[..n], i + 1, job);
          EarlierRouteStands(routes, i, job, p);
        }
      }
    }
  }

  lemma EarlierRouteStands(routes: seq<Route>, i: nat, job: JobId, p: Placement)
    requires i < |routes| - 1
    requires LastStopAt(routes[i], routes[i].stops, job, p) && NotServed(routes[..|routes| - 1], i + 1, job)
    requires NoStop(routes[|routes| - 1].stops, 0, job)
    ensures PlacedAt(routes, job, p)
  {
    var n := |routes| - 1;
    forall h | i + 1 <= h < |routes| ensures NoStop(routes[h].stops, 0, job) {
      assert h < n ==> routes[h] == routes[..n][h];
    }
  }

  // ----------------------------------------------------------------- the diff

  function Classify(before: Placement, after: Placement): Option<ChangeKind> {
    if before.onDate != after.onDate then Some(Rescheduled)
    else if before.arrival != after.arrival then Some(Retimed)
    else if SetOf(before.workerIds) != SetOf(after.workerIds) || before.vanId != after.vanId then Some(Reassigned)
    else None
  }

  /** What the customer was told, if anything. */
  function PromiseOf(world: World, job: JobId): (Commitment, string, Option<Window>) {
    if job !in world.jobs then (Provisional, "", None)
    else
      var j := world.jobs[job];
      (j.commitment, j.customerName, if j.commitment.Confirmed? && j.windows != [] then Some(j.windows[0]) else None)
  }

  function KindOf(previous: Option<Placement>, current: Option<Placement>): Option<ChangeKind> {
    if previous.None? then if current.None? then None else Some(Added)
    else if current.None? then Some(Dropped)
    else Classify(previous.value, current.value)
  }

  /** What happened to one job, if anything did. */
  function ChangeFor(was: Placements, now: Placements, world: World, job: JobId): Option<JobChange> {
    var kind := KindOf(Get(was, job), Get(now, job));
    var (commitment, name, promised) := PromiseOf(world, job);
    if kind.None? then None
    else Some(JobChange(job, kind.value, Get(was, job), Get(now, job), commitment, name, promised))
  }

  /** The same day, minute, people and van, whatever else. */
  predicate SamePlace(before: Placement, after: Placement) {
    && before.onDate == after.onDate && before.arrival == after.arrival
    && SetOf(before.workerIds) == SetOf(after.workerIds) && before.vanId == after.vanId
  }

  /** What becomes of a job is told apart by where it was and is: nothing happened exactly when it is in neither plan or
      at the same place in both; a new day counts before a new minute, and that before new people or a new van. */
  lemma WhatHappened(was: Placements, now: Placements, world: World, job: JobId)
    ensures var change, before, after := ChangeFor(was, now, world, job), Get(was, job), Get(now, job);
            && (change.None? <==> if before.Some? && after.Some? then SamePlace(before.value, after.value)
                                  else before.None? && after.None?)
            && (change.Some? ==>
                  var c := change.value;
                  && c.jobId == job && c.before == before && c.after == after
                  && (job !in world.jobs ==>
                        c.commitment == Provisional && c.customerName == "" && c.promised == None)
                  && (job in world.jobs ==>
                        var j := world.jobs[job];
                        && c.commitment == j.commitment && c.customerName == j.customerName
                        && c.promised ==
                             if j.commitment.Confirmed? && j.windows != [] then Some(j.windows[0]) else None)
                  && (c.kind.Added? <==> before.None?) && (c.kind.Dropped? <==> before.Some? && after.None?)
                  && (before.Some? && after.Some? ==>
                        && (c.kind.Rescheduled? <==> before.value.onDate != after.value.onDate)
                        && (c.kind.Retimed? <==> before.value.onDate == after.value.onDate
                                                 && before.value.arrival != after.value.arrival)))
  {
  }

  function ChangesFor(was: Placements, now: Placements, world: World, ids: seq<JobId>): seq<JobChange> {
    if ids == [] then []
    else
      var rest := ChangesFor(was, now, world, ids[..|ids| - 1]);
      var change := ChangeFor(was, now, world, ids[|ids| - 1]);
      if change.None? then rest else rest + [change.value]
  }

  predicate Changed(changes: seq<JobChange>, job: JobId) {
    exists i :: 0 <= i < |changes| && changes[i].jobId == job
  }

  predicate Earlier(a: JobId, b: JobId) { StringLe(a, b) && a != b }

  predicate InOrder(changes: seq<JobChange>) {
    forall i, j :: 0 <= i < j < |changes| ==> Earlier(changes[i].jobId, changes[j].jobId)
  }

  /** One change for each job that something happened to, and no other, in order of job id. */
  ghost predicate IsDiff(changes: seq<JobChange>, was: Placements, now: Placements, world: World) {
    && (forall i :: 0 <= i < |changes| ==> ChangeFor(was, now, world, changes[i].jobId) == Some(changes[i]))
    && (forall job :: ChangeFor(was, now, world, job).Some? ==> Changed(changes, job))
    && InOrder(changes)
  }

  predicate Genuine(change: JobChange, was: Placements, now: Placements, world: World, ids: seq<JobId>) {
    change.jobId in ids && ChangeFor(was, now, world, change.jobId) == Some(change)
  }

  lemma {:induction false} OnlyRealChanges(was: Placements, now: Placements, world: World, ids: seq<JobId>)
    ensures forall c :: c in ChangesFor(was, now, world, ids) ==> Genuine(c, was, now, world, ids)
    decreases |ids|
  {
    if ids != [] {
      var n := |ids| - 1;
      OnlyRealChanges(was, now, world, ids[..n]);
      forall c | c in ChangesFor(was, now, world, ids) ensures Genuine(c, was, now, world, ids) {
        if c in ChangesFor(was, now, world, ids[..n]) {
          assert Genuine(c, was, now, world, ids[..n]);
        }
      }
    }
  }

  lemma {:induction false} EveryRealChange(was: Placements, now: Placements, world: World, ids: seq<JobId>, job: JobId)
    requires job in ids && ChangeFor(was, now, world, job).Some?
    ensures Changed(ChangesFor(was, now, world, ids), job)
    decreases |ids|
  {
    var n := |ids| - 1;
    var rest, changes := ChangesFor(was, now, world, ids[..n]), ChangesFor(was, now, world, ids);
    if ids[n] == job {
      assert changes[|rest|].jobId == job;
    } else {
      EveryRealChange(was, now, world, ids[..n], job);
      var i :| 0 <= i < |rest| && rest[i].jobId == job;
      assert changes[i].jobId == job;
    }
  }

  lemma {:induction false} ChangesInOrder(was: Placements, now: Placements, world: World, ids: seq<JobId>)
    requires forall i, j :: 0 <= i < j < |ids| ==> Earlier(ids[i], ids[j])
    ensures InOrder(ChangesFor(was, now, world, ids))
    decreases |ids|
  {
    if ids != [] {
      var n := |ids| - 1;
      var rest := ChangesFor(was, now, world, ids[..n]);
      ChangesInOrder(was, now, world, ids[..n]);
      OnlyRealChanges(was, now, world, ids[..n]);
      forall i | 0 <= i < |rest| ensures Earlier(rest[i].jobId, ids[n]) {
        assert Genuine(rest[i], was, now, world, ids[..n]);
      }
      var changes := ChangesFor(was, now, world, ids);
      assert |rest| < |changes| ==> changes == rest + [changes[|rest|]] && changes[|rest|].jobId == ids[n];
      forall i, j | 0 <= i < j < |changes| ensures Earlier(changes[i].jobId, changes[j].jobId) {
        assert changes[i] == rest[i];
        if j < |rest| {
          assert changes[j] == rest[j] && Earlier(rest[i].jobId, rest[j].jobId);
        } else {
          assert changes[j].jobId == ids[n] && Earlier(rest[i].jobId, ids[n]);
        }
      }
    }
  }

  method DiffPlans(before: seq<Route>, after: seq<Route>, world: World, costDelta: int) returns (diff: PlanDiff)
    ensures IsDiff(diff.changes, PlacementsOf(before), PlacementsOf(after), world)
    ensures diff.costDelta == costDelta
  {
    var was, now := PlacementsOf(before), PlacementsOf(after);
    var ids := SortedKeys(was.Keys + now.Keys);
    var changes: seq<JobChange> := [];
    for n := 0 to |ids|
      invariant changes == ChangesFor(was, now, world, ids[..n])
    {
      var change := ChangeFor(was, now, world, ids[n]);
      assert ids[..n + 1][..n] == ids[..n];
      if change.Some? {
        changes := changes + [change.value];
      }
    }
    assert ids[..|ids|] == ids;
    OnlyRealChanges(was, now, world, ids);
    ChangesInOrder(was, now, world, ids);
    forall i | 0 <= i < |changes| ensures ChangeFor(was, now, world, changes[i].jobId) == Some(changes[i]) {
      assert Genuine(changes[i], was, now, world, ids);
    }
    forall job | ChangeFor(was, now, world, job).Some? ensures Changed(changes, job) {
      EveryRealChange(was, now, world, ids, job);
    }
    diff := PlanDiff(changes, costDelta);
  }

  // ----------------------------------------------------------- who would notice

  predicate Contains(w: Window, t: Moment) { w.start <= t <= w.end }

  predicate IsVisible(c: JobChange) {
    if !c.commitment.Confirmed? && !c.commitment.Dispatched? then false
    else
      match c.kind
      case Dropped => true
      case Rescheduled => true
      case Retimed =>
        c.promised.None? || c.after.None?
        || !(Contains(c.promised.value, c.after.value.arrival) && c.after.value.departure <= c.promised.value.end)
      case _ => false
  }

  function VisibleChanges(changes: seq<JobChange>): seq<JobChange> {
    if changes == [] then []
    else
      var rest, last := VisibleChanges(changes[..|changes| - 1]), changes[|changes| - 1];
      if IsVisible(last) then rest + [last] else rest
  }

  predicate AnyVisible(changes: seq<JobChange>) { exists i :: 0 <= i < |changes| && IsVisible(changes[i]) }

  predicate AnyReassigned(changes: seq<JobChange>) {
    exists i :: 0 <= i < |changes| && changes[i].kind.Reassigned?
  }

  function RadiusOf(diff: PlanDiff): BlastRadius {
    if AnyVisible(diff.changes) then CustomerVisible
    else if AnyReassigned(diff.changes) then CrewOnly
    else Internal
  }

  function VisibleAt(changes: seq<JobChange>): set<int> { set i | 0 <= i < |changes| && IsVisible(changes[i]) }

  /** There are as many changes to call about as a customer would notice. */
  lemma {:induction false} CallsAreTheVisible(changes: seq<JobChange>)
    ensures |VisibleChanges(changes)| == |VisibleAt(changes)|
    decreases |changes|
  {
    if changes == [] {
      assert VisibleAt(changes) == {};
    } else {
      var n := |changes| - 1;
      CallsAreTheVisible(changes[..n]);
      OneMoreToTell(changes);
    }
  }

  lemma OneMoreToTell(changes: seq<JobChange>)
    requires changes != []
    ensures var n := |changes| - 1;
            && n !in VisibleAt(changes[..n])
            && VisibleAt(changes) ==
               if IsVisible(changes[n]) then VisibleAt(changes[..n]) + {n} else VisibleAt(changes[..n])
  {
    assert forall i :: 0 <= i < |changes| - 1 ==> changes[..|changes| - 1][i] == changes[i];
  }

  lemma {:induction false} NoCallsIffNothingVisible(changes: seq<JobChange>)
    ensures VisibleChanges(changes) == [] <==> !AnyVisible(changes)
    decreases |changes|
  {
    if changes != [] {
      var n := |changes| - 1;
      NoCallsIffNothingVisible(changes[..n]);
      if AnyVisible(changes[..n]) {
        var i :| 0 <= i < n && IsVisible(changes[..n][i]);
        assert IsVisible(changes[i]);
      }
      if AnyVisible(changes) && !IsVisible(changes[n]) {
        var i :| 0 <= i < |changes| && IsVisible(changes[i]);
        assert IsVisible(changes[..n][i]);
      }
    }
  }

  /** What a customer who was promised something is owed: still placed, the same day, and either at the
      same minute or, for a quoted window, with the whole visit inside it. */
  predicate PromiseKept(job: Job, before: Placement, after: Option<Placement>) {
    && after.Some?
    && after.value.onDate == before.onDate
    && (after.value.arrival == before.arrival
        || (job.commitment.Confirmed? && job.windows != []
            && job.windows[0].start <= after.value.arrival <= job.windows[0].end
            && after.value.departure <= job.windows[0].end))
  }

  predicate WasPromised(world: World, id: JobId) {
    id in world.jobs && (world.jobs[id].commitment.Confirmed? || world.jobs[id].commitment.Dispatched?)
  }

  ghost predicate AllPromisesKept(before: seq<Route>, after: seq<Route>, world: World) {
    forall id :: id in PlacementsOf(before) && WasPromised(world, id) ==>
      PromiseKept(world.jobs[id], PlacementsOf(before)[id], Get(PlacementsOf(after), id))
  }

  lemma ChangeVisibleIffBroken(was: Placements, now: Placements, world: World, id: JobId)
    ensures var change := ChangeFor(was, now, world, id);
            change.Some? && IsVisible(change.value) <==>
            id in was && WasPromised(world, id) && !PromiseKept(world.jobs[id], was[id], Get(now, id))
  {
  }

  /** A diff shows nothing to customers exactly when every promise of the old plan is kept. */
  lemma VisibleIffAPromiseBroke(diff: PlanDiff, before: seq<Route>, after: seq<Route>, world: World)
    requires IsDiff(diff.changes, PlacementsOf(before), PlacementsOf(after), world)
    ensures RadiusOf(diff) == CustomerVisible <==> !AllPromisesKept(before, after, world)
  {
    var was, now := PlacementsOf(before), PlacementsOf(after);
    if AnyVisible(diff.changes) {
      var i :| 0 <= i < |diff.changes| && IsVisible(diff.changes[i]);
      ChangeVisibleIffBroken(was, now, world, diff.changes[i].jobId);
    }
    if !AllPromisesKept(before, after, world) {
      var id :| id in was && WasPromised(world, id) && !PromiseKept(world.jobs[id], was[id], Get(now, id));
      ChangeVisibleIffBroken(was, now, world, id);
      assert Changed(diff.changes, id);
      var i :| 0 <= i < |diff.changes| && diff.changes[i].jobId == id;
      assert ChangeFor(was, now, world, diff.changes[i].jobId) == Some(diff.changes[i]);
    }
  }

  /** Only the crews would notice exactly when every promise is kept and some job that keeps its day and minute has
      other people or another van. */
  lemma CrewOnlyIff(diff: PlanDiff, before: seq<Route>, after: seq<Route>, world: World)
    requires IsDiff(diff.changes, PlacementsOf(before), PlacementsOf(after), world)
    ensures RadiusOf(diff) == CrewOnly <==>
            && AllPromisesKept(before, after, world)
            && SomeoneElseComes(PlacementsOf(before), PlacementsOf(after))
  {
    VisibleIffAPromiseBroke(diff, before, after, world);
    ReassignedIff(diff.changes, PlacementsOf(before), PlacementsOf(after), world);
  }

  lemma ReassignedIff(changes: seq<JobChange>, was: Placements, now: Placements, world: World)
    requires IsDiff(changes, was, now, world)
    ensures AnyReassigned(changes) <==> SomeoneElseComes(was, now)
  {
    if id :| id in was && id in now && ChangesHands(was[id], now[id]) {
      HandsAreReassigned(was, now, world, id);
      assert Changed(changes, id);
      var i :| 0 <= i < |changes| && changes[i].jobId == id;
      assert ChangeFor(was, now, world, changes[i].jobId) == Some(changes[i]);
    }
    if i :| 0 <= i < |changes| && changes[i].kind.Reassigned? {
      HandsAreReassigned(was, now, world, changes[i].jobId);
    }
  }

  lemma HandsAreReassigned(was: Placements, now: Placements, world: World, id: JobId)
    ensures var change := ChangeFor(was, now, world, id);
            change.Some? && change.value.kind.Reassigned? <==>
            id in was && id in now && ChangesHands(was[id], now[id])
  {
  }

  predicate SomeoneElseComes(was: Placements, now: Placements) {
    exists id :: id in was && id in now && ChangesHands(was[id], now[id])
  }

  predicate ChangesHands(before: Placement, after: Placement) {
    && before.onDate == after.onDate && before.arrival == after.arrival
    && (SetOf(before.workerIds) != SetOf(after.workerIds) || before.vanId != after.vanId)
  }

  /** On a plan without duplicates a kept promise speaks of the very stop that was planned. */
  lemma {:induction false} OnlyStopIsThePlacement(routes: seq<Route>, i: nat, j: nat)
    requires Distinct(RoutedJobs(routes)) && i < |routes| && j < |routes[i].stops|
    ensures routes[i].stops[j].jobId in PlacementsOf(routes)
    ensures PlacementsOf(routes)[routes[i].stops[j].jobId] == Place(routes[i], routes[i].stops[j])
    decreases |routes|
  {
    var n, id := |routes| - 1, routes[i].stops[j].jobId;
    var front, back := RoutedJobs(routes[..n]), StopJobs(routes[n].stops);
    assert RoutedJobs(routes) == front + back;
    forall a, b | 0 <= a < b < |front| ensures front[a] != front[b] {
      assert RoutedJobs(routes)[a] == front[a] && RoutedJobs(routes)[b] == front[b];
    }
    forall a, b | 0 <= a < b < |back| ensures back[a] != back[b] {
      assert RoutedJobs(routes)[|front| + a] == back[a] && RoutedJobs(routes)[|front| + b] == back[b];
    }
    if i < n {
      OnlyStopIsThePlacement(routes[..n], i, j);
      StopsArePlaced(routes[n], routes[n].stops, id);
      PlacedWhereRouted(routes[..n], id);
      forall a, b | 0 <= a < |front| && 0 <= b < |back| ensures front[a] != back[b] {
        assert RoutedJobs(routes)[a] == front[a] && RoutedJobs(routes)[|front| + b] == back[b];
      }
    } else {
      OnlyStopOfTheRoute(routes[n], routes[n].stops, j);
    }
  }

  lemma {:induction false} OnlyStopOfTheRoute(route: Route, stops: seq<Stop>, j: nat)
    requires Distinct(StopJobs(stops)) && j < |stops|
    ensures stops[j].jobId in PlaceStops(route, stops) && PlaceStops(route, stops)[stops[j].jobId]
              == Place(route, stops[j])
    decreases |stops|
  {
    var n := |stops| - 1;
    if j < n {
      assert StopJobs(stops)[j] != StopJobs(stops)[n];
      assert StopJobs(stops[..n]) == StopJobs(stops)[..n];
      OnlyStopOfTheRoute(route, stops[..n], j);
    }
  }

  // ----------------------------------------------------------------- autonomy

  datatype Policy = Policy(maxCostDelta: int, maxChanges: int, escalateNewOvertime: bool)

  datatype Reason =
    | NeedTelling(count: nat, names: seq<string>)
    | AddsOvertime(minutes: int)
    | CostsMore(delta: int)
    | TooManyMoves(count: nat)
    | NothingChanged
    | InternalOnly(count: nat)

  datatype Decision = AutoApply(reasons: seq<Reason>) | Escalate(reasons: seq<Reason>)

  predicate WithinPolicy(diff: PlanDiff, policy: Policy, addedOvertime: int) {
    && !(policy.escalateNewOvertime && addedOvertime > 0)
    && diff.costDelta <= policy.maxCostDelta
    && |diff.changes| <= policy.maxChanges
  }

  function NameOf(c: JobChange): string { if c.customerName != "" then c.customerName else c.jobId }

  /** A reason for asking: it holds, and says by how much; of those to be told the first three are named, by id where
      there is no name. */
  predicate Justified(r: Reason, diff: PlanDiff, policy: Policy, addedOvertime: int) {
    var visible := VisibleChanges(diff.changes);
    match r
    case NeedTelling(count, names) =>
      && AnyVisible(diff.changes) && count == |visible| && |names| == Min(3, |visible|)
      && forall i :: 0 <= i < |names| ==>
           names[i] == if visible[i].customerName != "" then visible[i].customerName else visible[i].jobId
    case AddsOvertime(minutes) => policy.escalateNewOvertime && addedOvertime > 0 && minutes == addedOvertime
    case CostsMore(delta) => diff.costDelta > policy.maxCostDelta && delta == diff.costDelta
    case TooManyMoves(count) => |diff.changes| > policy.maxChanges && count == |diff.changes|
    case _ => false
  }

  /** Every limit that is broken is a reason, and there is no other. */
  predicate SaysWhy(reasons: seq<Reason>, diff: PlanDiff, policy: Policy, addedOvertime: int) {
    && (forall r :: r in reasons ==> Justified(r, diff, policy, addedOvertime))
    && (AnyVisible(diff.changes) ==> exists r :: r in reasons && r.NeedTelling?)
    && (policy.escalateNewOvertime && addedOvertime > 0 ==> AddsOvertime(addedOvertime) in reasons)
    && (diff.costDelta > policy.maxCostDelta ==> CostsMore(diff.costDelta) in reasons)
    && (|diff.changes| > policy.maxChanges ==> TooManyMoves(|diff.changes|) in reasons)
  }

  /** A change is applied without asking exactly when no customer would notice and it is within every
      limit; a broken promise is reported first, and no limit can buy it off. */
  method Decide(diff: PlanDiff, policy: Policy, addedOvertime: int) returns (decision: Decision)
    ensures decision.AutoApply? <==> !AnyVisible(diff.changes) && WithinPolicy(diff, policy, addedOvertime)
    ensures AnyVisible(diff.changes) ==>
              && decision.reasons != [] && decision.reasons[0].NeedTelling?
              && decision.reasons[0].count == |VisibleChanges(diff.changes)|
    ensures decision.Escalate? ==> forall r :: r in decision.reasons ==> !r.NothingChanged? && !r.InternalOnly?
    ensures decision.Escalate? ==> SaysWhy(decision.reasons, diff, policy, addedOvertime)
    ensures decision.AutoApply? ==>
              decision.reasons == [if diff.changes == [] then NothingChanged else InternalOnly(|diff.changes|)]
  {
    var blocking: seq<Reason> := [];
    if RadiusOf(diff) == CustomerVisible {
      var visible := VisibleChanges(diff.changes);
      var shown := if |visible| < 3 then visible else visible[..3];
      blocking := [NeedTelling(|visible|, seq(|shown|, i requires 0 <= i < |shown| => NameOf(shown[i])))];
    }
    if policy.escalateNewOvertime && addedOvertime > 0 {
      blocking := blocking + [AddsOvertime(addedOvertime)];
    }
    if diff.costDelta > policy.maxCostDelta {
      blocking := blocking + [CostsMore(diff.costDelta)];
    }
    if |diff.changes| > policy.maxChanges {
      blocking := blocking + [TooManyMoves(|diff.changes|)];
    }
    if blocking != [] {
      return Escalate(blocking);
    }
    return AutoApply([if diff.changes == [] then NothingChanged else InternalOnly(|diff.changes|)]);
  }
}
