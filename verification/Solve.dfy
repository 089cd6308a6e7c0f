/** Planning and checking in one go, as the command line does: solve a day or a horizon, build the plan, have
    the independent checker read it, and fail if it reports anything (cli/main.py). */
module Solve {
  import opened Collections
  import opened Domain
  import opened DayPlanner
  import opened Invariants
  import opened Horizon
  import Agreement
  import Checker
  import DayAssignment
  import HorizonAgreement
  import PlanDay

  // ------------------------------------------------------------------ candidates

  function AskedAt(world: World, id: JobId): Moment { if id in world.jobs then world.jobs[id].requestedAt else 0 }

  /** Oldest request first, ties by id. */
  function OldestFirst(world: World): (JobId, JobId) -> bool {
    (a: JobId, b: JobId) =>
      AskedAt(world, a) < AskedAt(world, b) || (AskedAt(world, a) == AskedAt(world, b) && StringLe(a, b))
  }

  lemma OldestFirstIsOrder(world: World)
    ensures TotalPreorder(OldestFirst(world))
  {
    StringLeIsOrder();
  }

  /** Of any two the one asked for earlier comes first, and of two asked for at once the one of smaller id. */
  predicate AskedInTurn(world: World, ids: seq<JobId>) {
    forall i, j :: 0 <= i < j < |ids| && ids[i] in world.jobs && ids[j] in world.jobs ==>
      || world.jobs[ids[i]].requestedAt < world.jobs[ids[j]].requestedAt
      || (world.jobs[ids[i]].requestedAt == world.jobs[ids[j]].requestedAt && StringLe(ids[i], ids[j]))
  }

  method InOrder(world: World, chosen: set<JobId>) returns (ids: seq<JobId>)
    requires chosen <= world.jobs.Keys
    ensures forall x :: x in ids <==> x in chosen
    ensures Distinct(ids) && AskedInTurn(world, ids)
  {
    var keys := SortedKeys(chosen);
    ids := Sort(keys, OldestFirst(world));
    OldestFirstIsOrder(world);
    SortKeeps(keys, OldestFirst(world));
    SortSorts(keys, OldestFirst(world));
    MultisetDistinct(keys, ids);
    var le := OldestFirst(world);
    forall i, j | 0 <= i < j < |ids| ensures le(ids[i], ids[j]) && ids[i] in world.jobs && ids[j] in world.jobs {
      assert ids[i] in ids && ids[j] in ids;
    }
  }

  predicate IsSchedulable(job: Job) { IsActive(job) && !job.commitment.Dispatched? }

  /** What is still to be placed: drafts, offers and promises, and nothing under way, done or cancelled. */
  lemma SchedulableIsStillToPlace(job: Job)
    ensures IsSchedulable(job) <==>
            job.commitment.Draft? || job.commitment.Provisional? || job.commitment.Confirmed?
  {
  }

  method ActiveJobs(world: World) returns (ids: seq<JobId>)
    ensures forall x :: x in ids <==> x in world.jobs && IsActive(world.jobs[x])
    ensures Distinct(ids) && AskedInTurn(world, ids)
  {
    ids := InOrder(world, set x | x in world.jobs && IsActive(world.jobs[x]));
  }

  /** The active work that is not already in flight, in order. */
  ghost predicate IsSchedule(world: World, jobs: seq<Job>) {
    var ids := DayAssignment.IdsOfJobs(jobs);
    && Known(world, jobs) && Distinct(ids) && AskedInTurn(world, ids)
    && forall x :: x in ids <==> x in world.jobs && IsSchedulable(world.jobs[x])
  }

  method SchedulableJobs(world: World) returns (jobs: seq<Job>)
    requires WellKeyed(world)
    ensures IsSchedule(world, jobs)
  {
    var ids := InOrder(world, set x | x in world.jobs && IsSchedulable(world.jobs[x]));
    jobs := seq(|ids|, i requires 0 <= i < |ids| => assert ids[i] in ids; world.jobs[ids[i]]);
    assert forall i :: 0 <= i < |ids| ==> ids[i] in ids;
    assert DayAssignment.IdsOfJobs(jobs) == ids;
  }

  // --------------------------------------------------------------------- one day

  /** The checker as the command line sets it up. */
  function DefaultConfig(params: Params): Config { Config(1, params.allowOvertime, {}) }

  lemma EmptyPlanPasses(plan: Plan, world: World, travel: Travel, config: Config)
    requires plan.routes == []
    ensures PlanOk(plan, world, travel, config)
  {
  }

  /** Solve one day and check the plan. Every active job comes out once, on a stop or as unserved; and under
      the edges the two sides share, nothing is reported and the exit code is zero. */
  method SolveDay(
    world: World, travel: Travel, onDate: Day, params: Params,
    solve: Problem -> Option<Assignment>)
    returns (plan: Plan, violations: seq<Checker.Violation>, code: int, ghost p: Problem)
    requires WellKeyed(world)
    requires forall q: Problem :: solve(q).Some? ==> Feasible(q, solve(q).value)
    ensures Distinct(RoutedJobs(plan.routes) + plan.unserved)
    ensures forall x :: x in RoutedJobs(plan.routes) || x in plan.unserved <==>
              x in world.jobs && IsActive(world.jobs[x])
    ensures code == 0 <==> PlanOk(plan, world, travel, DefaultConfig(params))
    ensures code == 0 <==> violations == []
    ensures PlanDay.Unanswered(p, solve) || Agreement.Edges(world, travel, p, solve(p).value, DefaultConfig(params)) ==>
              code == 0
  {
    var ids := ActiveJobs(world);
    var result, posed, probes := PlanDay.PlanDay(world, travel, onDate, ids, map[], {}, params, solve);
    p := posed;
    plan := Plan("plan", None, world.asOf, onDate, onDate, result.routes, result.unserved, "");
    violations := Checker.ValidatePlan(plan, world, travel, DefaultConfig(params));
    code := if violations == [] then 0 else 1;
    if PlanDay.Unanswered(p, solve) {
      EmptyPlanPasses(plan, world, travel, DefaultConfig(params));
    } else {
      AnswerPasses(world, travel, onDate, ids, params, probes, p, solve(p).value, DefaultConfig(params), plan);
    }
  }

  lemma AnswerPasses(
    world: World, travel: Travel, onDate: Day, ids: seq<JobId>, params: Params, probes: seq<Moment>, p: Problem,
    a: Assignment, config: Config, plan: Plan)
    requires Distinct(ids) && plan.routes == DayRoutes(p, a, travel)
    ensures Poses(world, travel, onDate, ids, map[], params, probes, p) && Feasible(p, a)
            && Agreement.Edges(world, travel, p, a, config) ==>
              PlanOk(plan, world, travel, config)
  {
    if Poses(world, travel, onDate, ids, map[], params, probes, p) && Feasible(p, a)
      && Agreement.Edges(world, travel, p, a, config)
    {
      Agreement.PlannerAndCheckerAgree(world, travel, onDate, ids, map[], params, probes, p, a, config, plan);
    }
  }

  // ------------------------------------------------------------------- a horizon

  /** A day's routes pass the checker by themselves and are out only on that day. */
  ghost predicate DayPasses(world: World, travel: Travel, config: Config, d: Day, routes: seq<Route>) {
    PlanOk(HorizonAgreement.Bare(routes), world, travel, config) && HorizonAgreement.AllKeepTo(routes, d)
  }

  /** What planning one day promises of it. */
  lemma PlannedDayPasses(
    world: World, travel: Travel, onDate: Day, ids: seq<JobId>, pinned: map<JobId, seq<WorkerId>>,
    params: Params, probes: seq<Moment>, p: Problem, a: Assignment, config: Config)
    requires Poses(world, travel, onDate, ids, pinned, params, probes, p) && Distinct(ids)
    requires Feasible(p, a) && Agreement.Edges(world, travel, p, a, config)
    ensures DayPasses(world, travel, config, onDate, DayRoutes(p, a, travel))
  {
    HorizonAgreement.EmittedRoutesKeepToTheDay(world, travel, onDate, ids, pinned, params, probes, p, a, config);
    Agreement.PlannerAndCheckerAgree(world, travel, onDate, ids, pinned, params, probes, p, a, config,
                                     HorizonAgreement.Bare(DayRoutes(p, a, travel)));
  }

  /** Every day that is given anything passes in this round. */
  ghost predicate DaysPass(
    world: World, travel: Travel, config: Config, horizon: seq<Day>, assignment: seq<DayAssignment.Placing>,
    round: nat, planDay: DayPlan)
  {
    forall d :: d in horizon && DayAssignment.Todays(assignment, d) != [] ==>
      DayPasses(world, travel, config, d, planDay(round, d, DayAssignment.Todays(assignment, d)).routes)
  }

  /** What planning one day asked of the solver, and its answer. */
  datatype Asked = Asked(pinned: map<JobId, seq<WorkerId>>, probes: seq<Moment>, p: Problem, a: Option<Assignment>)

  type Questions = (nat, Day, seq<JobId>) -> Asked

  /** The routes are those `PlanDay.PlanDay` makes of the day: none without an answer, else the answer's. */
  ghost predicate PlannedAs(
    world: World, travel: Travel, params: Params, d: Day, ids: seq<JobId>, routes: seq<Route>, asked: Asked)
  {
    && Poses(world, travel, d, ids, asked.pinned, params, asked.probes, asked.p)
    && (asked.a.Some? ==> Feasible(asked.p, asked.a.value))
    && routes == if asked.a.Some? then DayRoutes(asked.p, asked.a.value, travel) else []
  }

  ghost predicate DaysPlanned(
    world: World, travel: Travel, params: Params, horizon: seq<Day>, planDay: DayPlan, asked: Questions)
  {
    forall round, d, ids :: d in horizon ==>
      PlannedAs(world, travel, params, d, ids, planDay(round, d, ids).routes, asked(round, d, ids))
  }

  /** An answer the plan was made of meets the edges the planner and the checker share. */
  ghost predicate WithinEdges(world: World, travel: Travel, config: Config, asked: Asked) {
    asked.a.Some? ==> Agreement.Edges(world, travel, asked.p, asked.a.value, config)
  }

  /** So do all those of the last round, the one whose days make up the plan. */
  ghost predicate DaysWithinEdges(
    world: World, travel: Travel, config: Config, horizon: seq<Day>, result: HorizonResult, asked: Questions)
  {
    forall d :: d in horizon && DayAssignment.Todays(result.assignment, d) != [] ==>
      WithinEdges(world, travel, config, asked(LastRound(result), d, DayAssignment.Todays(result.assignment, d)))
  }

  /** Days planned by the day planner within the edges pass one by one. */
  lemma PlannedDaysPass(
    world: World, travel: Travel, params: Params, config: Config, horizon: seq<Day>, planDay: DayPlan,
    asked: Questions, result: HorizonResult)
    requires DaysPlanned(world, travel, params, horizon, planDay, asked)
    requires DaysWithinEdges(world, travel, config, horizon, result, asked)
    requires Distinct(DayAssignment.Keys(result.assignment))
    ensures DaysPass(world, travel, config, horizon, result.assignment, LastRound(result), planDay)
  {
    var round := LastRound(result);
    forall d: Day | d in horizon && DayAssignment.Todays(result.assignment, d) != []
      ensures DayPasses(world, travel, config, d,
                        planDay(round, d, DayAssignment.Todays(result.assignment, d)).routes)
    {
      var ids := DayAssignment.Todays(result.assignment, d);
      var q := asked(round, d, ids);
      DayAssignment.TodaysFacts(result.assignment, d);
      assert PlannedAs(world, travel, params, d, ids, planDay(round, d, ids).routes, q);
      AskedDayPasses(world, travel, params, config, d, ids, planDay(round, d, ids).routes, q);
    }
  }

  lemma AskedDayPasses(
    world: World, travel: Travel, params: Params, config: Config, d: Day, ids: seq<JobId>, routes: seq<Route>, q: Asked)
    requires PlannedAs(world, travel, params, d, ids, routes, q) && Distinct(ids)
    requires WithinEdges(world, travel, config, q)
    ensures DayPasses(world, travel, config, d, routes)
  {
    if q.a.Some? {
      PlannedDayPasses(world, travel, d, ids, q.pinned, params, q.probes, q.p, q.a.value, config);
    } else {
      EmptyPlanPasses(HorizonAgreement.Bare(routes), world, travel, config);
    }
  }

  /** The days of the horizon that are given anything. */
  function DatesOf(horizon: seq<Day>, assignment: seq<DayAssignment.Placing>): (r: seq<Day>)
    ensures forall d :: d in r ==> d in horizon
    ensures Distinct(horizon) ==> Distinct(r)
  {
    if horizon == [] then []
    else
      var d, rest := horizon[|horizon| - 1], DatesOf(horizon[..|horizon| - 1], assignment);
      assert forall i :: 0 <= i < |rest| ==> rest[i] in rest;
      if DayAssignment.Todays(assignment, d) == [] then rest else rest + [d]
  }

  lemma {:induction false} ResultsPass(
    world: World, travel: Travel, config: Config, horizon: seq<Day>, assignment: seq<DayAssignment.Placing>,
    round: nat, planDay: DayPlan)
    requires DaysPass(world, travel, config, horizon, assignment, round, planDay)
    ensures HorizonAgreement.EachDayPasses(
              ResultsOf(horizon, assignment, round, planDay), DatesOf(horizon, assignment), world, travel, config)
    decreases |horizon|
  {
    if horizon != [] {
      var d := horizon[|horizon| - 1];
      ResultsPass(world, travel, config, horizon[..|horizon| - 1], assignment, round, planDay);
      assert d in horizon;
    }
  }

  lemma {:induction false} NothingLocked(candidates: seq<Job>)
    ensures Unlocked(candidates, {}) == candidates
    decreases |candidates|
  {
    if candidates != [] {
      NothingLocked(candidates[..|candidates| - 1]);
    }
  }

  /** Solve a horizon and check the plan. Every schedulable job comes out once; and when the days are the day
      planner's and the answers the plan was made of meet the edges, nothing is reported of the whole and the exit
      code is zero. */
  method SolveHorizon(
    world: World, travel: Travel, params: Params, horizon: seq<Day>, ghost base: Day -> DayAssignment.Capacity,
    maxRounds: nat, choose: Chooser, planDay: DayPlan, ghost asked: Questions)
    returns (plan: Plan, violations: seq<Checker.Violation>, code: int, result: HorizonResult)
    requires WellKeyed(world) && horizon != [] && Distinct(horizon)
    requires DaysAccount(world, planDay) && DaysPlanned(world, travel, params, horizon, planDay, asked)
    requires forall jobs :: IsSchedule(world, jobs) ==> ChoicesOk(world, horizon, jobs, base, choose)
    ensures ComesFrom(world, horizon, planDay, result) && plan.routes == result.routes
    ensures Distinct(RoutedJobs(plan.routes) + plan.unserved)
    ensures forall x :: x in RoutedJobs(plan.routes) || x in plan.unserved <==>
              x in world.jobs && IsSchedulable(world.jobs[x])
    ensures code == 0 <==> PlanOk(plan, world, travel, DefaultConfig(params))
    ensures code == 0 <==> violations == []
    ensures DaysWithinEdges(world, travel, DefaultConfig(params), horizon, result, asked) ==> code == 0
  {
    var config := DefaultConfig(params);
    var candidates := SchedulableJobs(world);
    NothingLocked(candidates);
    assert SetOf<JobId>([]) == {};
    ghost var turns;
    result, turns := PlanHorizon(world, candidates, horizon, base, [], map[], maxRounds, choose, planDay);
    plan := Plan("horizon", None, world.asOf, horizon[0], horizon[|horizon| - 1], result.routes, result.unserved, "");
    violations := Checker.ValidatePlan(plan, world, travel, config);
    code := if violations == [] then 0 else 1;
    ListedOnceComesOutOnce(world, candidates, horizon, {}, map[], result);
    AnswersPass(world, travel, params, config, horizon, planDay, asked, result, plan);
  }

  lemma AnswersPass(
    world: World, travel: Travel, params: Params, config: Config, horizon: seq<Day>, planDay: DayPlan,
    asked: Questions, result: HorizonResult, plan: Plan)
    requires Distinct(horizon) && DaysPlanned(world, travel, params, horizon, planDay, asked)
    requires ComesFrom(world, horizon, planDay, result) && plan.routes == result.routes
    ensures DaysWithinEdges(world, travel, config, horizon, result, asked) ==> PlanOk(plan, world, travel, config)
  {
    if DaysWithinEdges(world, travel, config, horizon, result, asked) {
      PlannedDaysPass(world, travel, params, config, horizon, planDay, asked, result);
      ResultsPass(world, travel, config, horizon, result.assignment, LastRound(result), planDay);
      HorizonAgreement.WholeHorizonPasses(world, travel, config, horizon, result.assignment, result.days,
                                          DatesOf(horizon, result.assignment), plan);
    }
  }
}
