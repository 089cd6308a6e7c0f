/** From one day to the horizon: days that pass the checker one by one pass it together
    (scheduler/horizon.py, domain/invariants.py). */
module HorizonAgreement {
  import opened Collections
  import opened Domain
  import opened DayPlanner
  import opened Horizon
  import opened Invariants
  import Agreement
  import DayAssignment
  import Repair

  /** The route is out only on day `d`. */
  predicate KeepsTo(route: Route, d: Day) {
    RouteSpan(route).Some? ==>
        DayStart(d) <= RouteSpan(route).value.0 && RouteSpan(route).value.1 <= DayStart(d) + MINUTES_PER_DAY
  }

  predicate AllKeepTo(routes: seq<Route>, d: Day) { forall i :: 0 <= i < |routes| ==> KeepsTo(routes[i], d) }

  /** The routes alone, as a plan; the checks look at nothing else. */
  function Bare(routes: seq<Route>): Plan { Plan("", None, 0, 0, 0, routes, [], "") }

  lemma DaysApart(kind: Resource, a: Route, b: Route, d: Day, e: Day)
    requires KeepsTo(a, d) && KeepsTo(b, e) && d != e
    ensures !Clash(kind, a, b)
  {
  }

  predicate OnOneOf(route: Route, dates: seq<Day>) { exists i :: 0 <= i < |dates| && KeepsTo(route, dates[i]) }

  lemma {:induction false} EveryRouteHasItsDay(days: seq<DayResult>, dates: seq<Day>)
    requires |days| == |dates| && forall i :: 0 <= i < |days| ==> AllKeepTo(days[i].routes, dates[i])
    ensures forall j :: 0 <= j < |AllRoutes(days)| ==> OnOneOf(AllRoutes(days)[j], dates)
    decreases |days|
  {
    if days != [] {
      var n := |days| - 1;
      var front := AllRoutes(days[..n]);
      EveryRouteHasItsDay(days[..n], dates[..n]);
      forall j | 0 <= j < |AllRoutes(days)| ensures OnOneOf(AllRoutes(days)[j], dates) {
        if j < |front| {
          assert OnOneOf(front[j], dates[..n]);
          var i :| 0 <= i < n && KeepsTo(front[j], dates[..n][i]);
          assert KeepsTo(front[j], dates[i]);
        } else {
          assert KeepsTo(days[n].routes[j - |front|], dates[n]);
        }
      }
    }
  }

  ghost predicate EachDayPasses(
    days: seq<DayResult>, dates: seq<Day>, world: World, travel: Travel, config: Config)
  {
    && |days| == |dates|
    && forall i :: 0 <= i < |days| ==>
        AllKeepTo(days[i].routes, dates[i]) && PlanOk(Bare(days[i].routes), world, travel, config)
  }

  lemma {:induction false} DaysPassTogether(
    days: seq<DayResult>, dates: seq<Day>, world: World, travel: Travel, config: Config)
    requires EachDayPasses(days, dates, world, travel, config) && Distinct(dates)
    ensures forall j :: 0 <= j < |AllRoutes(days)| ==> RouteOk(AllRoutes(days)[j], world, travel, config)
    ensures Exclusive(OfWorkers, AllRoutes(days)) && Exclusive(OfVans, AllRoutes(days))
    decreases |days|
  {
    if days != [] {
      var n := |days| - 1;
      var front, last := AllRoutes(days[..n]), days[n].routes;
      DaysPassTogether(days[..n], dates[..n], world, travel, config);
      EveryRouteHasItsDay(days[..n], dates[..n]);
      assert PlanOk(Bare(last), world, travel, config) && AllKeepTo(last, dates[n]);
      assert Repair.EachOk(last, world, travel, config);
      Repair.JoinPasses(world, travel, config, front, last);
      forall j | 0 <= j < |last|
        ensures Repair.ClashFree(OfWorkers, front, last[j]) && Repair.ClashFree(OfVans, front, last[j])
      {
        LastDayIsApart(front, dates[..n], last[j], dates[n]);
      }
      Repair.ExclusiveTogether(OfWorkers, front, last);
      Repair.ExclusiveTogether(OfVans, front, last);
    }
  }

  lemma LastDayIsApart(front: seq<Route>, dates: seq<Day>, route: Route, d: Day)
    requires forall j :: 0 <= j < |front| ==> OnOneOf(front[j], dates)
    requires KeepsTo(route, d) && d !in dates
    ensures Repair.ClashFree(OfWorkers, front, route) && Repair.ClashFree(OfVans, front, route)
  {
    forall j | 0 <= j < |front| ensures !Clash(OfWorkers, front[j], route) && !Clash(OfVans, front[j], route) {
      assert OnOneOf(front[j], dates);
      var i :| 0 <= i < |dates| && KeepsTo(front[j], dates[i]);
      DaysApart(OfWorkers, front[j], route, dates[i], d);
      DaysApart(OfVans, front[j], route, dates[i], d);
    }
  }

  /** The routes a day's planning emits are out only on that day. */
  lemma EmittedRoutesKeepToTheDay(
    world: World, travel: Travel, onDate: Day, ids: seq<JobId>, pinned: map<JobId, seq<WorkerId>>,
    params: Params, probes: seq<Moment>, p: Problem, a: Assignment, config: Config)
    requires Poses(world, travel, onDate, ids, pinned, params, probes, p) && Distinct(ids)
    requires Feasible(p, a) && Agreement.Edges(world, travel, p, a, config)
    ensures AllKeepTo(DayRoutes(p, a, travel), onDate)
  {
    var routes, crews := DayRoutes(p, a, travel), EmittedCrews(p, a, |p.vans|);
    forall i | 0 <= i < |routes| ensures KeepsTo(routes[i], onDate) {
      assert crews[i] in crews;
      Agreement.RouteRunsOnTime(world, travel, p, a, config, crews[i]);
    }
  }

  /** A horizon of days that each pass, as each planned day does, passes the checker as one plan: nobody is
      double-booked across midnight, and no job is on two days. */
  lemma WholeHorizonPasses(
    world: World, travel: Travel, config: Config, horizon: seq<Day>, assignment: seq<DayAssignment.Placing>,
    days: seq<DayResult>, dates: seq<Day>, plan: Plan)
    requires DaysHold(world, horizon, assignment, days)
    requires EachDayPasses(days, dates, world, travel, config) && Distinct(dates)
    requires plan.routes == AllRoutes(days)
    ensures PlanOk(plan, world, travel, config)
  {
    DaysPassTogether(days, dates, world, travel, config);
  }
}
