/** The two-stage loop: assign days, plan each day, learn from what spilled, and repeat
    (scheduler/horizon.py). */
module Horizon {
  import opened Collections
  import opened Domain
  import opened DayAssignment
  import opened PlanDay
  import DayPlanner

  type DayResult = DayPlanner.DayResult

  /** Planning one day: the round, the day, and the jobs it was given. */
  type DayPlan = (nat, Day, seq<JobId>) -> DayResult

  type Chooser = (nat, Overrides) -> Option<Choice>

  /** Every day accounts for what it is given, which is what `PlanDay.PlanDay` promises. */
  ghost predicate DaysAccount(world: World, planDay: DayPlan) {
    forall round, d, ids :: Distinct(ids) ==>
      Accounted(world, ids, planDay(round, d, ids).routes, planDay(round, d, ids).unserved)
  }

  /** Every day reports broken promises as `PlanDay.PlanDay` does; `answered` says for which days the solver was
      asked and had an answer. */
  ghost predicate DaysRelease(world: World, planDay: DayPlan, answered: (nat, Day, seq<JobId>) -> bool) {
    forall round, d, ids :: DayReleases(world, d, ids, planDay(round, d, ids).routes, planDay(round, d, ids).released,
                                                answered(round, d, ids))
  }

  /** Every answer of the solver meets the constraints it was given. */
  ghost predicate ChoicesOk(
    world: World, horizon: seq<Day>, jobs: seq<Job>, base: Day -> Capacity, choose: Chooser)
  {
    forall round, overrides :: choose(round, overrides).Some? ==>
      ChoiceOk(world, horizon, jobs, base, overrides, choose(round, overrides).value)
  }

  // ------------------------------------------------------------------ one round

  function NotIn(ids: seq<JobId>, routed: seq<JobId>): (r: seq<JobId>)
    ensures forall x :: x in r <==> x in ids && x !in routed
  {
    if ids == [] then []
    else
      var rest := NotIn(ids[..|ids| - 1], routed);
      if ids[|ids| - 1] in routed then rest else rest + [ids[|ids| - 1]]
  }

  /** The results of the days that were given anything, in order. */
  function ResultsOf(horizon: seq<Day>, assignment: seq<Placing>, round: nat, planDay: DayPlan): seq<DayResult> {
    if horizon == [] then []
    else
      var d := horizon[|horizon| - 1];
      var rest := ResultsOf(horizon[..|horizon| - 1], assignment, round, planDay);
      if Todays(assignment, d) == [] then rest else rest + [planDay(round, d, Todays(assignment, d))]
  }

  /** What a day left undone. */
  function MissedOn(assignment: seq<Placing>, round: nat, planDay: DayPlan, d: Day): seq<JobId> {
    var todays := Todays(assignment, d);
    if todays == [] then [] else NotIn(todays, RoutedJobs(planDay(round, d, todays).routes))
  }

  /** What a day got done, in crew-minutes. */
  function Absorbed(world: World, assignment: seq<Placing>, round: nat, planDay: DayPlan, d: Day): nat {
    LoadOf(world, RoutedJobs(planDay(round, d, Todays(assignment, d)).routes))
  }

  function Learned(
    world: World, horizon: seq<Day>, assignment: seq<Placing>, round: nat, planDay: DayPlan,
    overrides: Overrides): Overrides
  {
    if horizon == [] then overrides
    else
      var d := horizon[|horizon| - 1];
      var before := Learned(world, horizon[..|horizon| - 1], assignment, round, planDay, overrides);
      if MissedOn(assignment, round, planDay, d) == [] then before
      else before[d := Absorbed(world, assignment, round, planDay, d)]
  }

  function Spilled(horizon: seq<Day>, assignment: seq<Placing>, round: nat, planDay: DayPlan): seq<JobId> {
    if horizon == [] then []
    else Spilled(horizon[..|horizon| - 1], assignment, round, planDay)
         + MissedOn(assignment, round, planDay, horizon[|horizon| - 1])
  }

  method PlanDays(
    world: World, horizon: seq<Day>, assignment: seq<Placing>, round: nat, planDay: DayPlan, overrides: Overrides)
    returns (days: seq<DayResult>, spilled: seq<JobId>, learned: Overrides)
    ensures days == ResultsOf(horizon, assignment, round, planDay)
    ensures spilled == Spilled(horizon, assignment, round, planDay)
    ensures learned == Learned(world, horizon, assignment, round, planDay, overrides)
    ensures forall x :: x in spilled <==> exists d :: d in horizon && MissedBy(assignment, round, planDay, d, x)
    ensures DaysAccount(world, planDay) && Distinct(Keys(assignment)) ==>
              Teaching(world, horizon, assignment, round, planDay, overrides, learned)
  {
    days, spilled, learned := [], [], overrides;
    for i := 0 to |horizon|
      invariant days == ResultsOf(horizon[..i], assignment, round, planDay)
      invariant spilled == Spilled(horizon[..i], assignment, round, planDay)
      invariant learned == Learned(world, horizon[..i], assignment, round, planDay, overrides)
    {
      assert horizon[..i + 1][..i] == horizon[..i];
      var d := horizon[i];
      var todays := Todays(assignment, d);
      if todays == [] {
        continue;
      }
      var result := planDay(round, d, todays);
      days := days + [result];
      var scheduled := RoutedJobs(result.routes);
      var missed := NotIn(todays, scheduled);
      if missed != [] {
        spilled := spilled + missed;
        learned := learned[d := LoadOf(world, scheduled)];
      }
    }
    assert horizon[..|horizon|] == horizon;
    SpilledAre(horizon, assignment, round, planDay);
    if DaysAccount(world, planDay) && Distinct(Keys(assignment)) {
      forall d ensures Taught(world, horizon, assignment, round, planDay, overrides, learned, d) {
        LearnedAt(world, horizon, assignment, round, planDay, overrides, d);
      }
    }
  }

  /** Jobs as the world has them; a job may be listed more than once. */
  predicate Known(world: World, jobs: seq<Job>) {
    forall i :: 0 <= i < |jobs| ==> jobs[i].id in world.jobs && world.jobs[jobs[i].id] == jobs[i]
  }

  lemma KnownMeansOneRecord(world: World, jobs: seq<Job>)
    requires Known(world, jobs)
    ensures OneRecordEach(jobs)
  {
  }

  // ------------------------------------------------------------------- progress

  /** What the whole horizon is believed to take. */
  function Room(base: Day -> Capacity, overrides: Overrides, horizon: seq<Day>): nat {
    if horizon == [] then 0
    else Room(base, overrides, horizon[..|horizon| - 1])
         + Capped(base(horizon[|horizon| - 1]).total, overrides, horizon[|horizon| - 1])
  }

  /** The crew-minutes the days have of their own. */
  ghost function DayMinutes(base: Day -> Capacity, horizon: seq<Day>): set<(Day, int)> {
    set d, m | d in horizon && 0 <= m < base(d).total :: (d, m)
  }

  /** Before anything is learned the horizon is believed to take all of them. */
  lemma {:induction false} RoomIsDayMinutes(base: Day -> Capacity, horizon: seq<Day>)
    requires Distinct(horizon)
    ensures Room(base, map[], horizon) == |DayMinutes(base, horizon)|
    decreases |horizon|
  {
    if horizon == [] {
      assert DayMinutes(base, horizon) == {};
    } else {
      var n := |horizon| - 1;
      RoomIsDayMinutes(base, horizon[..n]);
      LastDayMinutes(base, horizon);
      TaggedSize(horizon[n], base(horizon[n]).total);
      DisjointSize(DayMinutes(base, horizon[..n]), Tagged(horizon[n], base(horizon[n]).total));
    }
  }

  lemma LastDayMinutes(base: Day -> Capacity, horizon: seq<Day>)
    requires Distinct(horizon) && horizon != []
    ensures var n := |horizon| - 1;
            var front, last := DayMinutes(base, horizon[..n]), Tagged(horizon[n], base(horizon[n]).total);
            DayMinutes(base, horizon) == front + last && front !! last
  {
    var n := |horizon| - 1;
    var front, last := DayMinutes(base, horizon[..n]), Tagged(horizon[n], base(horizon[n]).total);
    assert horizon == horizon[..n] + [horizon[n]];
    forall u ensures u in DayMinutes(base, horizon) <==> u in front + last {
      assert u == (u.0, u.1);
    }
    assert horizon[n] !in horizon[..n];
  }

  /** A day that spilled is next believed to take this much, any other what it was. */
  predicate Teaches(learned: Overrides, overrides: Overrides, d: Day, spilled: bool, work: nat) {
    if spilled then d in learned && learned[d] == work else Get(learned, d) == Get(overrides, d)
  }

  /** The day was given the job and has it on none of its routes. */
  predicate MissedBy(assignment: seq<Placing>, round: nat, planDay: DayPlan, d: Day, x: JobId) {
    x in Todays(assignment, d) && x !in RoutedOn(assignment, round, planDay, d)
  }

  ghost predicate Spills(assignment: seq<Placing>, round: nat, planDay: DayPlan, d: Day) {
    exists x :: MissedBy(assignment, round, planDay, d, x)
  }

  /** What one round teaches about a day. */
  ghost predicate Taught(
    world: World, horizon: seq<Day>, assignment: seq<Placing>, round: nat, planDay: DayPlan, before: Overrides,
    after: Overrides, d: Day)
  {
    Teaches(after, before, d, d in horizon && Spills(assignment, round, planDay, d),
            |CrewMinutes(world, RoutedOn(assignment, round, planDay, d))|)
  }

  ghost predicate Teaching(
    world: World, horizon: seq<Day>, assignment: seq<Placing>, round: nat, planDay: DayPlan, before: Overrides,
    after: Overrides)
  {
    forall d :: Taught(world, horizon, assignment, round, planDay, before, after, d)
  }

  /** What a round spilled: exactly what some day missed. */
  lemma {:induction false} SpilledAre(horizon: seq<Day>, assignment: seq<Placing>, round: nat, planDay: DayPlan)
    ensures forall x :: x in Spilled(horizon, assignment, round, planDay) <==>
              exists d :: d in horizon && MissedBy(assignment, round, planDay, d, x)
    decreases |horizon|
  {
    if horizon != [] {
      var n := |horizon| - 1;
      SpilledAre(horizon[..n], assignment, round, planDay);
      forall x ensures x in MissedOn(assignment, round, planDay, horizon[n]) <==>
                       MissedBy(assignment, round, planDay, horizon[n], x)
      {
      }
      assert forall d :: d in horizon <==> d in horizon[..n] || d == horizon[n];
    }
  }

  function RoutedOn(assignment: seq<Placing>, round: nat, planDay: DayPlan, d: Day): set<JobId> {
    SetOf(RoutedJobs(planDay(round, d, Todays(assignment, d)).routes))
  }

  lemma SpillsIff(assignment: seq<Placing>, round: nat, planDay: DayPlan, d: Day)
    ensures Spills(assignment, round, planDay, d) <==> MissedOn(assignment, round, planDay, d) != []
  {
    var missed := MissedOn(assignment, round, planDay, d);
    if missed != [] {
      assert missed[0] in missed && MissedBy(assignment, round, planDay, d, missed[0]);
    }
    if x :| MissedBy(assignment, round, planDay, d, x) {
      assert x in missed;
    }
  }

  lemma {:induction false} LearnedIsAbsorbed(
    world: World, horizon: seq<Day>, assignment: seq<Placing>, round: nat, planDay: DayPlan, overrides: Overrides,
    d: Day)
    ensures Teaches(Learned(world, horizon, assignment, round, planDay, overrides), overrides, d,
                    d in horizon && MissedOn(assignment, round, planDay, d) != [],
                    Absorbed(world, assignment, round, planDay, d))
    decreases |horizon|
  {
    if horizon != [] {
      var n := |horizon| - 1;
      LearnedIsAbsorbed(world, horizon[..n], assignment, round, planDay, overrides, d);
      if d == horizon[n] {
        assert d in horizon;
      } else {
        assert d in horizon <==> d in horizon[..n];
      }
    }
  }

  /** After a round a day that spilled is believed to take exactly the crew-minutes of the jobs it routed, and any
      other day what it was believed to take before. */
  lemma LearnedAt(
    world: World, horizon: seq<Day>, assignment: seq<Placing>, round: nat, planDay: DayPlan, overrides: Overrides,
    d: Day)
    requires DaysAccount(world, planDay) && Distinct(Keys(assignment))
    ensures Taught(world, horizon, assignment, round, planDay, overrides,
                   Learned(world, horizon, assignment, round, planDay, overrides), d)
  {
    LearnedIsAbsorbed(world, horizon, assignment, round, planDay, overrides, d);
    SpillsIff(assignment, round, planDay, d);
    AbsorbedIsRouted(world, assignment, round, planDay, d);
  }

  lemma AbsorbedIsRouted(world: World, assignment: seq<Placing>, round: nat, planDay: DayPlan, d: Day)
    requires DaysAccount(world, planDay) && Distinct(Keys(assignment))
    ensures Absorbed(world, assignment, round, planDay, d) ==
            |CrewMinutes(world, RoutedOn(assignment, round, planDay, d))|
    ensures forall x :: x in RoutedOn(assignment, round, planDay, d) ==> x in Todays(assignment, d)
  {
    var todays := Todays(assignment, d);
    TodaysFacts(assignment, d);
    var result := planDay(round, d, todays);
    assert Accounted(world, todays, result.routes, result.unserved);
    SplitDistinct(RoutedJobs(result.routes), result.unserved);
    LoadIsCrewMinutes(world, RoutedJobs(result.routes));
    forall x | x in RoutedJobs(result.routes) ensures x in todays {
      assert AnswersFor(world, todays, x);
    }
  }

  lemma {:induction false} SpillHasADay(horizon: seq<Day>, assignment: seq<Placing>, round: nat, planDay: DayPlan)
    ensures Spilled(horizon, assignment, round, planDay) != [] ==>
              exists i :: 0 <= i < |horizon| && MissedOn(assignment, round, planDay, horizon[i]) != []
    decreases |horizon|
  {
    if horizon != [] {
      var n := |horizon| - 1;
      SpillHasADay(horizon[..n], assignment, round, planDay);
      if Spilled(horizon[..n], assignment, round, planDay) != [] {
        var i :| 0 <= i < n && MissedOn(assignment, round, planDay, horizon[..n][i]) != [];
        assert MissedOn(assignment, round, planDay, horizon[i]) != [];
      }
    }
  }

  /** A day that spills absorbed strictly less than it was given. */
  lemma SpillingAbsorbsLess(
    world: World, assignment: seq<Placing>, round: nat, planDay: DayPlan, d: Day)
    requires DaysAccount(world, planDay) && Distinct(Keys(assignment))
    requires forall x :: x in Keys(assignment) ==> x in world.jobs
    requires MissedOn(assignment, round, planDay, d) != []
    ensures Absorbed(world, assignment, round, planDay, d) < LoadOf(world, Todays(assignment, d))
  {
    var todays := Todays(assignment, d);
    TodaysFacts(assignment, d);
    var result := planDay(round, d, todays);
    var routed := RoutedJobs(result.routes);
    assert Accounted(world, todays, result.routes, result.unserved);
    SplitDistinct(routed, result.unserved);
    forall x | x in routed ensures x in todays {
      assert AnswersFor(world, todays, x);
    }
    MissingOneLoadsLess(world, routed, todays, MissedOn(assignment, round, planDay, d)[0]);
  }

  lemma {:induction false} RoomShrinks(base: Day -> Capacity, before: Overrides, after: Overrides, horizon: seq<Day>)
    requires forall d :: d in horizon ==> Capped(base(d).total, after, d) <= Capped(base(d).total, before, d)
    ensures Room(base, after, horizon) <= Room(base, before, horizon)
    ensures (exists d :: d in horizon && Capped(base(d).total, after, d) < Capped(base(d).total, before, d)) ==>
              Room(base, after, horizon) < Room(base, before, horizon)
    decreases |horizon|
  {
    if horizon != [] {
      var n := |horizon| - 1;
      RoomShrinks(base, before, after, horizon[..n]);
      assert horizon[n] in horizon;
      if d :| d in horizon && Capped(base(d).total, after, d) < Capped(base(d).total, before, d) {
        assert d in horizon[..n] || d == horizon[n];
      }
    }
  }

  /** With no work locked, a day that spills is next believed to take strictly less than it was filled
      under, and no day is believed to take more: so the room of the horizon falls every round that spills. */
  lemma SpillingTightens(
    world: World, horizon: seq<Day>, jobs: seq<Job>, base: Day -> Capacity, choose: Chooser,
    round: nat, planDay: DayPlan, overrides: Overrides)
    requires ChoicesOk(world, horizon, jobs, base, choose) && DaysAccount(world, planDay)
    requires Known(world, jobs)
    requires choose(round, overrides).Some?
    ensures var assignment := Placings(world, horizon, choose(round, overrides), jobs);
            var learned := Learned(world, horizon, assignment, round, planDay, overrides);
            && (forall d :: d in horizon ==>
                  Tightens(base, overrides, learned, d, MissedOn(assignment, round, planDay, d) != []))
            && (Spilled(horizon, assignment, round, planDay) != [] ==>
                  Room(base, learned, horizon) < Room(base, overrides, horizon))
  {
    var assignment := Placings(world, horizon, choose(round, overrides), jobs);
    var learned := Learned(world, horizon, assignment, round, planDay, overrides);
    forall d | d in horizon
      ensures Tightens(base, overrides, learned, d, MissedOn(assignment, round, planDay, d) != [])
    {
      DayTightens(world, horizon, jobs, base, choose, round, planDay, overrides, d);
    }
    RoomShrinks(base, overrides, learned, horizon);
    SpillHasADay(horizon, assignment, round, planDay);
    if Spilled(horizon, assignment, round, planDay) != [] {
      var i :| 0 <= i < |horizon| && MissedOn(assignment, round, planDay, horizon[i]) != [];
      assert horizon[i] in horizon;
    }
  }

  /** A day is believed to take no more than before, and strictly less if it spilled. */
  predicate Tightens(base: Day -> Capacity, before: Overrides, after: Overrides, d: Day, spilled: bool) {
    && Capped(base(d).total, after, d) <= Capped(base(d).total, before, d)
    && (spilled ==> Capped(base(d).total, after, d) < Capped(base(d).total, before, d))
  }

  lemma PlacedAreKnown(world: World, horizon: seq<Day>, jobs: seq<Job>, choice: Option<Choice>)
    requires Known(world, jobs)
    ensures Distinct(Keys(Placings(world, horizon, choice, jobs)))
    ensures forall x :: x in Keys(Placings(world, horizon, choice, jobs)) ==> x in world.jobs
  {
    KnownMeansOneRecord(world, jobs);
    EachJobOnce(world, horizon, choice, jobs);
    forall x | x in Keys(Placings(world, horizon, choice, jobs)) ensures x in world.jobs {
      assert x in IdsOfJobs(jobs);
    }
  }

  lemma DayTightens(
    world: World, horizon: seq<Day>, jobs: seq<Job>, base: Day -> Capacity, choose: Chooser,
    round: nat, planDay: DayPlan, overrides: Overrides, d: Day)
    requires ChoicesOk(world, horizon, jobs, base, choose) && DaysAccount(world, planDay)
    requires Known(world, jobs) && choose(round, overrides).Some? && d in horizon
    ensures var assignment := Placings(world, horizon, choose(round, overrides), jobs);
            Tightens(base, overrides, Learned(world, horizon, assignment, round, planDay, overrides), d,
                     MissedOn(assignment, round, planDay, d) != [])
  {
    var choice := choose(round, overrides);
    var assignment := Placings(world, horizon, choice, jobs);
    LearnedIsAbsorbed(world, horizon, assignment, round, planDay, overrides, d);
    if MissedOn(assignment, round, planDay, d) != [] {
      PlacedAreKnown(world, horizon, jobs, choice);
      SpillingAbsorbsLess(world, assignment, round, planDay, d);
      TodaysLoadIsDemand(world, horizon, choice.value, jobs, d);
      assert Demand(world, horizon, choice.value, jobs, d, None) <= Effective(base(d), overrides, d).total;
    } else {
      StillCapped(world, horizon, assignment, round, planDay, overrides, base(d).total, d);
    }
  }

  lemma StillCapped(
    world: World, horizon: seq<Day>, assignment: seq<Placing>, round: nat, planDay: DayPlan, overrides: Overrides,
    capacity: nat, d: Day)
    requires MissedOn(assignment, round, planDay, d) == []
    ensures Capped(capacity, Learned(world, horizon, assignment, round, planDay, overrides), d)
              <= Capped(capacity, overrides, d)
  {
    var learned := Learned(world, horizon, assignment, round, planDay, overrides);
    LearnedIsAbsorbed(world, horizon, assignment, round, planDay, overrides, d);
    if learned == map[] {
      forall e ensures e !in overrides {
        LearnedIsAbsorbed(world, horizon, assignment, round, planDay, overrides, e);
      }
      assert overrides == map[];
    }
  }

  /** What the next round is told of a day that spilled: its whole capacity is exactly the crew-minutes of the jobs it
      routed, and within each certification's what those of them that need it take, so they still fit and nothing
      beside them does. */
  ghost predicate TakesJustThese(world: World, capacity: Capacity, ids: set<JobId>) {
    && capacity.total == |CrewMinutes(world, ids)|
    && forall c: Certification ::
         |CrewMinutes(world, Needing(world, ids, Some(c)))| <= GetOr(capacity.byCert, c, 0)
  }

  /** With no work locked, the work a spilling day got done still fits it in the next round, and exactly that much. */
  lemma RoutedStillFits(
    world: World, horizon: seq<Day>, jobs: seq<Job>, base: Day -> Capacity, choose: Chooser,
    round: nat, planDay: DayPlan, overrides: Overrides, d: Day)
    requires ChoicesOk(world, horizon, jobs, base, choose) && DaysAccount(world, planDay)
    requires Known(world, jobs) && choose(round, overrides).Some? && d in horizon
    requires Spills(Placings(world, horizon, choose(round, overrides), jobs), round, planDay, d)
    ensures var assignment := Placings(world, horizon, choose(round, overrides), jobs);
            TakesJustThese(world,
                           Effective(base(d), Learned(world, horizon, assignment, round, planDay, overrides), d),
                           RoutedOn(assignment, round, planDay, d))
  {
    var choice := choose(round, overrides).value;
    var assignment := Placings(world, horizon, Some(choice), jobs);
    var learned := Learned(world, horizon, assignment, round, planDay, overrides);
    var routed := RoutedOn(assignment, round, planDay, d);
    PlacedAreKnown(world, horizon, jobs, Some(choice));
    LearnedAt(world, horizon, assignment, round, planDay, overrides, d);
    AbsorbedIsRouted(world, assignment, round, planDay, d);
    TodaysFacts(assignment, d);
    forall cert: Option<Certification>
      ensures |CrewMinutes(world, Needing(world, routed, cert))| <= Demand(world, horizon, choice, jobs, d, cert)
      ensures |CrewMinutes(world, Needing(world, routed, cert))| <= |CrewMinutes(world, routed)|
    {
      PlacedIsWithinDemand(world, horizon, choice, jobs, d, routed, cert);
      FewerCrewMinutes(world, Needing(world, routed, cert), routed);
    }
    assert Needing(world, routed, None) == routed;
    WithinBoth(base(d), overrides, learned, d, world, horizon, jobs, choice, routed);
  }

  /** Work within a day's constraints before, and within what the day is now believed to take, is within both. */
  lemma WithinBoth(
    base: Capacity, overrides: Overrides, learned: Overrides, d: Day, world: World, horizon: seq<Day>, jobs: seq<Job>,
    choice: Choice, routed: set<JobId>)
    requires d in learned && learned[d] == |CrewMinutes(world, routed)| && Needing(world, routed, None) == routed
    requires Demand(world, horizon, choice, jobs, d, None) <= Effective(base, overrides, d).total
    requires forall c: Certification ::
               Demand(world, horizon, choice, jobs, d, Some(c)) <= GetOr(Effective(base, overrides, d).byCert, c, 0)
    requires forall cert: Option<Certification> ::
               && |CrewMinutes(world, Needing(world, routed, cert))| <= Demand(world, horizon, choice, jobs, d, cert)
               && |CrewMinutes(world, Needing(world, routed, cert))| <= |CrewMinutes(world, routed)|
    ensures TakesJustThese(world, Effective(base, learned, d), routed)
  {
    forall c: Certification
      ensures |CrewMinutes(world, Needing(world, routed, Some(c)))| <= GetOr(Effective(base, learned, d).byCert, c, 0)
    {
      assert |CrewMinutes(world, Needing(world, routed, Some(c)))| <= Demand(world, horizon, choice, jobs, d, Some(c));
    }
  }

  // --------------------------------------------------------------- conservation

  datatype HorizonResult = HorizonResult(
    routes: seq<Route>, unserved: seq<JobId>, released: seq<JobId>, assignment: seq<Placing>, days: seq<DayResult>,
    rounds: nat)

  function AllRoutes(days: seq<DayResult>): seq<Route> {
    if days == [] then [] else AllRoutes(days[..|days| - 1]) + days[|days| - 1].routes
  }

  function AllUnserved(days: seq<DayResult>): seq<JobId> {
    if days == [] then [] else AllUnserved(days[..|days| - 1]) + days[|days| - 1].unserved
  }

  predicate OnSomeDay(horizon: seq<Day>, assignment: seq<Placing>, x: JobId) {
    exists i :: 0 <= i < |horizon| && x in Todays(assignment, horizon[i])
  }

  /** The days together account for the jobs given to them: routed once in all, and none of another day's. */
  ghost predicate DaysHold(world: World, horizon: seq<Day>, assignment: seq<Placing>, days: seq<DayResult>) {
    var routed, unserved := RoutedJobs(AllRoutes(days)), AllUnserved(days);
    && Distinct(routed)
    && (forall x :: x in routed ==> x !in unserved)
    && (forall x :: x in routed || x in unserved <==>
          OnSomeDay(horizon, assignment, x) && x in world.jobs && IsActive(world.jobs[x]))
  }

  lemma OnSomeDaySnoc(horizon: seq<Day>, assignment: seq<Placing>, x: JobId)
    requires horizon != []
    ensures OnSomeDay(horizon, assignment, x) <==>
            OnSomeDay(horizon[..|horizon| - 1], assignment, x) || x in Todays(assignment, horizon[|horizon| - 1])
  {
    var n := |horizon| - 1;
    if OnSomeDay(horizon[..n], assignment, x) {
      var i :| 0 <= i < n && x in Todays(assignment, horizon[..n][i]);
      assert x in Todays(assignment, horizon[i]);
    }
    if OnSomeDay(horizon, assignment, x) && x !in Todays(assignment, horizon[n]) {
      var i :| 0 <= i < |horizon| && x in Todays(assignment, horizon[i]);
      assert x in Todays(assignment, horizon[..n][i]);
    }
  }

  lemma OneDayOnly(assignment: seq<Placing>, x: JobId, d: Day, e: Day)
    requires Distinct(Keys(assignment)) && x in Todays(assignment, d) && x in Todays(assignment, e)
    ensures d == e
  {
    TodaysFacts(assignment, d);
    TodaysFacts(assignment, e);
    SamePlacing(assignment, Placing(x, d), Placing(x, e));
  }

  lemma OnOneDay(horizon: seq<Day>, assignment: seq<Placing>, x: JobId)
    requires horizon != [] && Distinct(horizon) && Distinct(Keys(assignment))
    requires x in Todays(assignment, horizon[|horizon| - 1])
    ensures !OnSomeDay(horizon[..|horizon| - 1], assignment, x)
  {
    var n := |horizon| - 1;
    forall i | 0 <= i < n ensures x !in Todays(assignment, horizon[..n][i]) {
      if x in Todays(assignment, horizon[i]) {
        OneDayOnly(assignment, x, horizon[i], horizon[n]);
      }
    }
  }

  lemma SamePlacing(assignment: seq<Placing>, p: Placing, q: Placing)
    requires Distinct(Keys(assignment)) && p in assignment && q in assignment && p.id == q.id
    ensures p == q
  {
    var i :| 0 <= i < |assignment| && assignment[i] == p;
    var j :| 0 <= j < |assignment| && assignment[j] == q;
    assert Keys(assignment)[i] == Keys(assignment)[j];
  }

  lemma {:induction false} DaysHoldTogether(
    world: World, horizon: seq<Day>, assignment: seq<Placing>, round: nat, planDay: DayPlan)
    requires DaysAccount(world, planDay) && Distinct(horizon) && Distinct(Keys(assignment))
    ensures DaysHold(world, horizon, assignment, ResultsOf(horizon, assignment, round, planDay))
    decreases |horizon|
  {
    if horizon != [] {
      var n := |horizon| - 1;
      var d, rest := horizon[n], ResultsOf(horizon[..n], assignment, round, planDay);
      DaysHoldTogether(world, horizon[..n], assignment, round, planDay);
      forall x ensures OnSomeDay(horizon, assignment, x) <==>
                       OnSomeDay(horizon[..n], assignment, x) || x in Todays(assignment, d)
      {
        OnSomeDaySnoc(horizon, assignment, x);
      }
      forall x | x in Todays(assignment, d) ensures !OnSomeDay(horizon[..n], assignment, x) {
        OnOneDay(horizon, assignment, x);
      }
      var todays := Todays(assignment, d);
      TodaysFacts(assignment, d);
      if todays != [] {
        OneMoreDay(world, horizon[..n], assignment, rest, planDay(round, d, todays), todays);
      }
    }
  }

  lemma OneMoreDay(
    world: World, horizon: seq<Day>, assignment: seq<Placing>, rest: seq<DayResult>, result: DayResult,
    todays: seq<JobId>)
    requires DaysHold(world, horizon, assignment, rest) && Accounted(world, todays, result.routes, result.unserved)
    requires forall x :: x in todays ==> !OnSomeDay(horizon, assignment, x)
    ensures var routed, unserved := RoutedJobs(AllRoutes(rest + [result])), AllUnserved(rest + [result]);
            && Distinct(routed)
            && (forall x :: x in routed ==> x !in unserved)
            && (forall x :: x in routed || x in unserved <==>
                  (OnSomeDay(horizon, assignment, x) || x in todays) && x in world.jobs && IsActive(world.jobs[x]))
  {
    assert (rest + [result])[..|rest|] == rest;
    RoutedJobsJoin(AllRoutes(rest), result.routes);
    SplitDistinct(RoutedJobs(result.routes), result.unserved);
    var before, now := RoutedJobs(AllRoutes(rest)), RoutedJobs(result.routes);
    assert forall x :: x in now || x in result.unserved ==> AnswersFor(world, todays, x);
    forall i, j | 0 <= i < |before| && 0 <= j < |now| ensures before[i] != now[j] {
      assert before[i] in before && now[j] in now;
    }
    DistinctConcat(before, now);
    forall x ensures x in before || x in AllUnserved(rest) || x in now || x in result.unserved <==>
                     (OnSomeDay(horizon, assignment, x) || x in todays) && x in world.jobs && IsActive(world.jobs[x])
    {
      assert x in now || x in result.unserved <==> AnswersFor(world, todays, x);
    }
  }

  /** `unserved` after the last round: what had no day, as often as it was reported, then once each what a
      day could not take and what slipped through. */
  ghost predicate Gathered(
    days: seq<DayResult>, scheduled: seq<JobId>, unplaceable: seq<JobId>, listed: seq<JobId>, unserved: seq<JobId>)
  {
    forall x :: multiset(unserved)[x] ==
      if x in unplaceable then multiset(unplaceable)[x]
      else if x !in scheduled && (x in AllUnserved(days) || x in listed) then 1 else 0
  }

  /** Appends what is neither scheduled nor reported yet. */
  method AddUnseen(reported: seq<JobId>, more: seq<JobId>, scheduled: seq<JobId>) returns (all: seq<JobId>)
    ensures forall x :: multiset(all)[x] ==
              if x in reported then multiset(reported)[x] else if x !in scheduled && x in more then 1 else 0
  {
    all := reported;
    for i := 0 to |more|
      invariant forall x :: multiset(all)[x] ==
                  if x in reported then multiset(reported)[x] else if x !in scheduled && x in more[..i] then 1 else 0
    {
      assert more[..i + 1] == more[..i] + [more[i]];
      assert more[i] in all <==> multiset(all)[more[i]] > 0;
      if more[i] !in scheduled && more[i] !in all {
        all := all + [more[i]];
      }
    }
    assert more[..|more|] == more;
  }

  method Gather(
    days: seq<DayResult>, scheduled: seq<JobId>, unplaceable: seq<JobId>, candidates: seq<Job>)
    returns (unserved: seq<JobId>)
    ensures Gathered(days, scheduled, unplaceable, IdsOfJobs(candidates), unserved)
  {
    var late := AddUnseen(unplaceable, AllUnserved(days), scheduled);
    unserved := AddUnseen(late, IdsOfJobs(candidates), scheduled);
    forall x ensures x in late <==> multiset(late)[x] > 0 {}
  }

  function Unlocked(candidates: seq<Job>, locked: set<JobId>): (r: seq<Job>)
    ensures forall j :: j in r <==> j in candidates && j.id !in locked
  {
    if candidates == [] then []
    else
      var rest, last := Unlocked(candidates[..|candidates| - 1], locked), candidates[|candidates| - 1];
      if last.id in locked then rest else rest + [last]
  }

  lemma {:induction false} UnlockedListings(candidates: seq<Job>, locked: set<JobId>, x: JobId)
    ensures Listings(Unlocked(candidates, locked), x) == if x in locked then 0 else Listings(candidates, x)
    decreases |candidates|
  {
    if candidates != [] {
      var n := |candidates| - 1;
      var rest := Unlocked(candidates[..n], locked);
      UnlockedListings(candidates[..n], locked, x);
      ListingsSnoc(candidates, x);
      if candidates[n].id !in locked {
        assert (rest + [candidates[n]])[..|rest|] == rest;
        ListingsSnoc(rest + [candidates[n]], x);
      }
    }
  }

  /** Locked work on the day it is pinned to, whatever stage A thinks. */
  function Pinnings(order: seq<JobId>, pinned: map<JobId, Day>): (r: seq<Placing>)
    ensures forall p :: p in r <==> p.id in order && p.id in pinned && p.day == pinned[p.id]
  {
    if order == [] then []
    else
      var rest, id := Pinnings(order[..|order| - 1], pinned), order[|order| - 1];
      if id in pinned then rest + [Placing(id, pinned[id])] else rest
  }

  lemma {:induction false} PinningsDistinct(order: seq<JobId>, pinned: map<JobId, Day>)
    requires Distinct(order)
    ensures Distinct(Keys(Pinnings(order, pinned)))
    ensures forall x :: x in Keys(Pinnings(order, pinned)) <==> x in order && x in pinned
    decreases |order|
  {
    if order != [] {
      var n := |order| - 1;
      var rest := Pinnings(order[..n], pinned);
      PinningsDistinct(order[..n], pinned);
      if order[n] in pinned {
        assert Keys(rest + [Placing(order[n], pinned[order[n]])]) == Keys(rest) + [order[n]];
      }
      assert order == order[..n] + [order[n]];
    }
  }

  /** What a round leaves behind: each job it was to assign is on one day, or is reported as often as it is
      listed; locked work is where it is pinned. */
  ghost predicate Assigned(
    candidates: seq<Job>, locked: set<JobId>, pinned: map<JobId, Day>, assignment: seq<Placing>,
    unplaceable: seq<JobId>)
  {
    && Distinct(Keys(assignment))
    && (forall x :: multiset(unplaceable)[x] ==
                    if x in locked || x in Keys(assignment) then 0 else Listings(candidates, x))
    && (forall p :: p in assignment ==>
          if p.id in locked then p.id in pinned && p.day == pinned[p.id] else p.id in IdsOfJobs(candidates))
    && (forall x :: x in locked && x in pinned ==> Placing(x, pinned[x]) in assignment)
  }

  lemma RoundAssigns(
    world: World, candidates: seq<Job>, horizon: seq<Day>, locked: set<JobId>, order: seq<JobId>,
    pinned: map<JobId, Day>, choice: Option<Choice>)
    requires OneRecordEach(Unlocked(candidates, locked)) && Distinct(order) && forall x :: x in order <==> x in locked
    ensures var jobs := Unlocked(candidates, locked);
            Assigned(candidates, locked, pinned,
                     Placings(world, horizon, choice, jobs) + Pinnings(order, pinned),
                     Homeless(world, horizon, jobs) + PassedOver(world, horizon, choice, jobs))
  {
    var jobs := Unlocked(candidates, locked);
    EachJobOnce(world, horizon, choice, jobs);
    PinningsDistinct(order, pinned);
    AssignsWithPins(candidates, locked, order, pinned, Placings(world, horizon, choice, jobs),
                    Homeless(world, horizon, jobs) + PassedOver(world, horizon, choice, jobs));
  }

  lemma UnlockedMembers(candidates: seq<Job>, locked: set<JobId>, x: JobId)
    requires x in IdsOfJobs(Unlocked(candidates, locked))
    ensures x in IdsOfJobs(candidates) && x !in locked
  {
    var jobs := Unlocked(candidates, locked);
    var i :| 0 <= i < |jobs| && jobs[i].id == x;
    assert jobs[i] in jobs;
    var j :| 0 <= j < |candidates| && candidates[j] == jobs[i];
    assert IdsOfJobs(candidates)[j] == x;
  }

  lemma KeysJoin(placed: seq<Placing>, pins: seq<Placing>)
    requires Distinct(Keys(placed)) && Distinct(Keys(pins))
    requires forall x :: x in Keys(placed) ==> x !in Keys(pins)
    ensures Distinct(Keys(placed + pins))
    ensures forall x :: x in Keys(placed + pins) <==> x in Keys(placed) || x in Keys(pins)
  {
    assert Keys(placed + pins) == Keys(placed) + Keys(pins);
    forall i, j | 0 <= i < |placed| && 0 <= j < |pins| ensures Keys(placed)[i] != Keys(pins)[j] {
      assert Keys(placed)[i] in Keys(placed) && Keys(pins)[j] in Keys(pins);
    }
    DistinctConcat(Keys(placed), Keys(pins));
  }

  lemma KeyOf(assignment: seq<Placing>, p: Placing)
    requires p in assignment
    ensures p.id in Keys(assignment)
  {
    var i :| 0 <= i < |assignment| && assignment[i] == p;
    assert Keys(assignment)[i] == p.id;
  }

  lemma AssignsWithPins(
    candidates: seq<Job>, locked: set<JobId>, order: seq<JobId>, pinned: map<JobId, Day>,
    placed: seq<Placing>, unplaced: seq<JobId>)
    requires Distinct(order) && forall x :: x in order <==> x in locked
    requires Shared(Unlocked(candidates, locked), Keys(placed), unplaced)
    ensures Assigned(candidates, locked, pinned, placed + Pinnings(order, pinned), unplaced)
  {
    var pins := Pinnings(order, pinned);
    PinningsDistinct(order, pinned);
    forall x | x in Keys(placed) ensures x in IdsOfJobs(candidates) && x !in locked {
      UnlockedMembers(candidates, locked, x);
    }
    KeysJoin(placed, pins);
    forall x ensures multiset(unplaced)[x]
                  == if x in locked || x in Keys(placed + pins) then 0 else Listings(candidates, x)
    {
      UnlockedListings(candidates, locked, x);
    }
    forall p | p in placed + pins
      ensures if p.id in locked then p.id in pinned && p.day == pinned[p.id] else p.id in IdsOfJobs(candidates)
    {
      if p in placed {
        KeyOf(placed, p);
      }
    }
    forall x | x in locked && x in pinned ensures Placing(x, pinned[x]) in placed + pins {
      assert Placing(x, pinned[x]) in pins;
    }
  }

  /** Locked work pinned inside the horizon that is still to be done. */
  predicate PinnedWithin(world: World, horizon: seq<Day>, locked: set<JobId>, pinned: map<JobId, Day>, x: JobId) {
    x in locked && x in pinned && pinned[x] in horizon && x in world.jobs && IsActive(world.jobs[x])
  }

  /** How often a job that is not routed is reported: once, or for a candidate that no round gave a day as
      often as it was listed. */
  predicate ReportedAs(candidates: seq<Job>, locked: set<JobId>, result: HorizonResult, x: JobId) {
    multiset(result.unserved)[x] ==
      if result.rounds > 0 && x !in locked && x !in Keys(result.assignment) then Listings(candidates, x) else 1
  }

  function ReleasedBy(days: seq<DayResult>): set<JobId> {
    set i, x | 0 <= i < |days| && x in days[i].released :: x
  }

  /** Every candidate, and all locked work pinned inside the horizon, comes out: in one stop of one route, or
      else in the unserved list, never in both. */
  ghost predicate Conserved(
    world: World, candidates: seq<Job>, horizon: seq<Day>, locked: set<JobId>, pinned: map<JobId, Day>,
    result: HorizonResult)
  {
    var routed := RoutedJobs(result.routes);
    && Distinct(routed)
    && (forall x :: x in routed ==> x !in result.unserved)
    && (forall x :: x in routed || x in result.unserved <==>
          x in IdsOfJobs(candidates) || (result.rounds > 0 && PinnedWithin(world, horizon, locked, pinned, x)))
    && (forall x :: x in result.unserved ==> ReportedAs(candidates, locked, result, x))
  }

  /** Candidates listed once come out once. */
  lemma ListedOnceComesOutOnce(
    world: World, candidates: seq<Job>, horizon: seq<Day>, locked: set<JobId>, pinned: map<JobId, Day>,
    result: HorizonResult)
    requires Conserved(world, candidates, horizon, locked, pinned, result) && Distinct(IdsOfJobs(candidates))
    ensures Distinct(RoutedJobs(result.routes) + result.unserved)
  {
    var routed, unserved := RoutedJobs(result.routes), result.unserved;
    forall x ensures multiset(unserved)[x] <= 1 {
      DistinctOnce(IdsOfJobs(candidates), x);
      assert x in unserved ==> ReportedAs(candidates, locked, result, x);
    }
    CountsMeanDistinct(unserved);
    forall i, j | 0 <= i < |routed| && 0 <= j < |unserved| ensures routed[i] != unserved[j] {
      assert routed[i] in routed && unserved[j] in unserved;
    }
    DistinctConcat(routed, unserved);
  }

  lemma CountsMeanDistinct(s: seq<JobId>)
    requires forall x :: multiset(s)[x] <= 1
    ensures Distinct(s)
  {
    forall i, j | 0 <= i < j < |s| ensures s[i] != s[j] {
      if s[i] == s[j] {
        TwiceIsTwo(s, i, j);
      }
    }
  }

  lemma TwiceIsTwo(s: seq<JobId>, i: nat, j: nat)
    requires i < j < |s| && s[i] == s[j]
    ensures multiset(s)[s[i]] >= 2
  {
    assert s == s[..i] + [s[i]] + s[i + 1..j] + [s[j]] + s[j + 1..];
  }

  lemma OnADay(horizon: seq<Day>, assignment: seq<Placing>, x: JobId)
    requires Distinct(Keys(assignment))
    ensures OnSomeDay(horizon, assignment, x) <==> exists p :: p in assignment && p.id == x && p.day in horizon
  {
    if OnSomeDay(horizon, assignment, x) {
      var i :| 0 <= i < |horizon| && x in Todays(assignment, horizon[i]);
      TodaysFacts(assignment, horizon[i]);
      assert Placing(x, horizon[i]) in assignment;
    }
    if p :| p in assignment && p.id == x && p.day in horizon {
      var i :| 0 <= i < |horizon| && horizon[i] == p.day;
      TodaysFacts(assignment, horizon[i]);
      assert Placing(x, horizon[i]) == p;
    }
  }

  /** A job some day was given is a candidate or locked work pinned there, and all such locked work was given. */
  lemma GivenToADay(
    world: World, candidates: seq<Job>, horizon: seq<Day>, locked: set<JobId>, pinned: map<JobId, Day>,
    assignment: seq<Placing>, unplaceable: seq<JobId>, x: JobId)
    requires Assigned(candidates, locked, pinned, assignment, unplaceable)
    ensures OnSomeDay(horizon, assignment, x) ==> x in Keys(assignment)
    ensures OnSomeDay(horizon, assignment, x) && x in world.jobs && IsActive(world.jobs[x]) ==>
              x in IdsOfJobs(candidates) || PinnedWithin(world, horizon, locked, pinned, x)
    ensures PinnedWithin(world, horizon, locked, pinned, x) ==> OnSomeDay(horizon, assignment, x)
  {
    OnADay(horizon, assignment, x);
    if p :| p in assignment && p.id == x && p.day in horizon {
      KeyOf(assignment, p);
    }
    if PinnedWithin(world, horizon, locked, pinned, x) {
      assert Placing(x, pinned[x]) in assignment;
    }
  }

  lemma NothingLost(
    world: World, candidates: seq<Job>, horizon: seq<Day>, locked: set<JobId>, pinned: map<JobId, Day>,
    result: HorizonResult, unplaceable: seq<JobId>)
    requires DaysHold(world, horizon, result.assignment, result.days) && result.routes == AllRoutes(result.days)
    requires if result.rounds > 0 then Assigned(candidates, locked, pinned, result.assignment, unplaceable)
             else result.assignment == [] && unplaceable == []
    requires Gathered(result.days, RoutedJobs(result.routes), unplaceable, IdsOfJobs(candidates), result.unserved)
    ensures Conserved(world, candidates, horizon, locked, pinned, result)
  {
    var routed, unserved, listed := RoutedJobs(result.routes), result.unserved, IdsOfJobs(candidates);
    forall x
      ensures x in routed ==> x !in unserved
      ensures x in routed || x in unserved <==>
                x in listed || (result.rounds > 0 && PinnedWithin(world, horizon, locked, pinned, x))
      ensures x in unserved ==> ReportedAs(candidates, locked, result, x)
    {
      assert x in unserved <==> multiset(unserved)[x] > 0;
      assert x in unplaceable <==> multiset(unplaceable)[x] > 0;
      assert x in listed <==> Listings(candidates, x) > 0;
      if result.rounds > 0 {
        GivenToADay(world, candidates, horizon, locked, pinned, result.assignment, unplaceable, x);
      }
    }
  }

  lemma {:induction false} NoSpillNoLesson(
    world: World, horizon: seq<Day>, assignment: seq<Placing>, round: nat, planDay: DayPlan, overrides: Overrides)
    ensures Spilled(horizon, assignment, round, planDay) == [] ==>
              Learned(world, horizon, assignment, round, planDay, overrides) == overrides
    decreases |horizon|
  {
    if horizon != [] {
      NoSpillNoLesson(world, horizon[..|horizon| - 1], assignment, round, planDay, overrides);
    }
  }

  lemma {:induction false} NothingAssignedNothingDone(horizon: seq<Day>, round: nat, planDay: DayPlan)
    ensures Spilled(horizon, [], round, planDay) == []
    ensures ResultsOf(horizon, [], round, planDay) == []
    decreases |horizon|
  {
    if horizon != [] {
      NothingAssignedNothingDone(horizon[..|horizon| - 1], round, planDay);
    }
  }

  /** A spilling round with nothing locked uses up room. */
  lemma RoundUsesRoom(
    world: World, horizon: seq<Day>, jobs: seq<Job>, base: Day -> Capacity, choose: Chooser,
    round: nat, planDay: DayPlan, overrides: Overrides)
    requires ChoicesOk(world, horizon, jobs, base, choose) && DaysAccount(world, planDay)
    requires Known(world, jobs)
    ensures var assignment := Placings(world, horizon, choose(round, overrides), jobs);
            Spilled(horizon, assignment, round, planDay) != [] ==>
              Room(base, Learned(world, horizon, assignment, round, planDay, overrides), horizon)
              < Room(base, overrides, horizon)
  {
    if choose(round, overrides).None? {
      NothingGivenNothingAsked(world, horizon, jobs);
      NothingAssignedNothingDone(horizon, round, planDay);
    } else {
      SpillingTightens(world, horizon, jobs, base, choose, round, planDay, overrides);
    }
  }

  /** Where the loop stands after some rounds: the days hold together and were planned in the last round from
      its assignment, which gave or reported every job it had to. */
  ghost predicate AfterRounds(
    world: World, candidates: seq<Job>, horizon: seq<Day>, locked: set<JobId>, pinned: map<JobId, Day>,
    planDay: DayPlan, assignment: seq<Placing>, unplaceable: seq<JobId>, days: seq<DayResult>, rounds: nat)
  {
    && DaysHold(world, horizon, assignment, days)
    && days == ResultsOf(horizon, assignment, Max(rounds - 1, 0), planDay)
    && if rounds > 0 then Assigned(candidates, locked, pinned, assignment, unplaceable)
       else assignment == [] && unplaceable == []
  }

  // ------------------------------------------------------------ broken promises

  /** The day was given something and released the job. */
  predicate ReleasedOn(assignment: seq<Placing>, round: nat, planDay: DayPlan, d: Day, x: JobId) {
    Todays(assignment, d) != [] && x in planDay(round, d, Todays(assignment, d)).released
  }

  lemma ReleasedBySnoc(days: seq<DayResult>, day: DayResult, x: JobId)
    ensures x in ReleasedBy(days + [day]) <==> x in ReleasedBy(days) || x in day.released
  {
    var all := days + [day];
    assert all[|days|] == day;
    if x in ReleasedBy(days) {
      var i :| 0 <= i < |days| && x in days[i].released;
      assert all[i] == days[i];
    }
  }

  lemma {:induction false} ReleasedByItsDays(
    horizon: seq<Day>, assignment: seq<Placing>, round: nat, planDay: DayPlan, x: JobId)
    ensures x in ReleasedBy(ResultsOf(horizon, assignment, round, planDay)) <==>
            exists d :: d in horizon && ReleasedOn(assignment, round, planDay, d, x)
    decreases |horizon|
  {
    if horizon != [] {
      var n := |horizon| - 1;
      var d := horizon[n];
      ReleasedByItsDays(horizon[..n], assignment, round, planDay, x);
      assert forall e :: e in horizon <==> e in horizon[..n] || e == d;
      assert d in horizon;
      var rest, day := ResultsOf(horizon[..n], assignment, round, planDay), planDay(round, d, Todays(assignment, d));
      ReleasedBySnoc(rest, day, x);
      assert ResultsOf(horizon, assignment, round, planDay)
          == if Todays(assignment, d) == [] then rest else rest + [day];
      assert ReleasedOn(assignment, round, planDay, d, x) <==> Todays(assignment, d) != [] && x in day.released;
    }
  }

  lemma RoutedSnoc(days: seq<DayResult>, day: DayResult, x: JobId)
    ensures x in RoutedJobs(AllRoutes(days + [day])) <==>
            x in RoutedJobs(AllRoutes(days)) || x in RoutedJobs(day.routes)
  {
    assert (days + [day])[..|days|] == days;
    RoutedJobsJoin(AllRoutes(days), day.routes);
  }

  lemma {:induction false} RoutedOnItsDay(
    horizon: seq<Day>, assignment: seq<Placing>, round: nat, planDay: DayPlan, d: Day, x: JobId)
    requires d in horizon && Todays(assignment, d) != []
    requires x in RoutedJobs(planDay(round, d, Todays(assignment, d)).routes)
    ensures x in RoutedJobs(AllRoutes(ResultsOf(horizon, assignment, round, planDay)))
    decreases |horizon|
  {
    var front, last := horizon[..|horizon| - 1], horizon[|horizon| - 1];
    var rest, day := ResultsOf(front, assignment, round, planDay), planDay(round, last, Todays(assignment, last));
    RoutedSnoc(rest, day, x);
    assert ResultsOf(horizon, assignment, round, planDay)
        == if Todays(assignment, last) == [] then rest else rest + [day];
    if d != last {
      assert d in front;
      RoutedOnItsDay(front, assignment, round, planDay, d, x);
      assert x in RoutedJobs(AllRoutes(rest));
    }
  }

  /** A broken promise comes out of the horizon as released exactly when, in the last round, some day was given the
      job, its parts and windows allowed that day, and the day's solver was asked and had an answer. */
  lemma BrokenPromisesOfTheHorizonIff(
    world: World, horizon: seq<Day>, planDay: DayPlan, answered: (nat, Day, seq<JobId>) -> bool,
    result: HorizonResult, x: JobId)
    requires DaysRelease(world, planDay, answered) && ComesFrom(world, horizon, planDay, result)
    requires forall y :: y in result.released <==> y in ReleasedBy(result.days)
    requires x in world.jobs && world.jobs[x].commitment.Confirmed? && x !in RoutedJobs(result.routes)
    ensures x in result.released <==>
            exists d :: d in horizon && AskedOn(world, result.assignment, LastRound(result), answered, d, x)
  {
    var assignment, round := result.assignment, LastRound(result);
    ReleasedByItsDays(horizon, assignment, round, planDay, x);
    forall d | d in horizon
      ensures ReleasedOn(assignment, round, planDay, d, x) <==> AskedOn(world, assignment, round, answered, d, x)
    {
      var todays := Todays(assignment, d);
      var day := planDay(round, d, todays);
      assert DayReleases(world, d, todays, day.routes, day.released, answered(round, d, todays));
      if todays != [] && x in RoutedJobs(planDay(round, d, todays).routes) {
        RoutedOnItsDay(horizon, assignment, round, planDay, d, x);
      }
      assert x in todays ==> BrokenOn(world, todays, planDay(round, d, todays).routes, x);
    }
  }

  function LastRound(result: HorizonResult): nat { Max(result.rounds - 1, 0) }

  /** The day was given the job, could take it, and its solver answered. */
  predicate AskedOn(
    world: World, assignment: seq<Placing>, round: nat, answered: (nat, Day, seq<JobId>) -> bool, d: Day, x: JobId)
  {
    && x in Todays(assignment, d) && DayPlanner.IsCandidate(world, d, x)
    && answered(round, d, Todays(assignment, d))
  }

  /** A promise the day assignment drops is unserved and nobody is told: it is not among the released. */
  lemma DroppedPromisesAreSilent(
    world: World, candidates: seq<Job>, horizon: seq<Day>, locked: set<JobId>, pinned: map<JobId, Day>,
    planDay: DayPlan, answered: (nat, Day, seq<JobId>) -> bool, result: HorizonResult, x: JobId)
    requires DaysRelease(world, planDay, answered) && ComesFrom(world, horizon, planDay, result)
    requires Conserved(world, candidates, horizon, locked, pinned, result)
    requires forall y :: y in result.released <==> y in ReleasedBy(result.days)
    requires x in IdsOfJobs(candidates) && x in world.jobs && world.jobs[x].commitment.Confirmed?
    requires x !in Keys(result.assignment)
    ensures x in result.unserved && x !in result.released
  {
    assert !OnSomeDay(horizon, result.assignment, x);
    BrokenPromisesOfTheHorizonIff(world, horizon, planDay, answered, result, x);
  }

  /** One round: what the days were believed to take, and who was put where. */
  datatype Turn = Turn(overrides: Overrides, assignment: seq<Placing>)

  /** The assignment is the solver's answer to what the days are believed to take, with locked work where it is
      pinned. */
  ghost predicate AnswersTo(
    world: World, candidates: seq<Job>, horizon: seq<Day>, locked: set<JobId>, pinned: map<JobId, Day>, round: nat,
    choose: Chooser, turn: Turn)
  {
    forall p: Placing :: p in turn.assignment <==>
      || p in Placings(world, horizon, choose(round, turn.overrides), Unlocked(candidates, locked))
      || (p.id in locked && p.id in pinned && p.day == pinned[p.id])
  }

  ghost predicate SomeDaySpills(horizon: seq<Day>, assignment: seq<Placing>, round: nat, planDay: DayPlan) {
    exists d :: d in horizon && Spills(assignment, round, planDay, d)
  }

  /** The rounds as they went: the first believes nothing but the days' own capacities, each later one what the one
      before it taught, and there is a later one only after a spill. */
  ghost predicate Rounds(
    world: World, candidates: seq<Job>, horizon: seq<Day>, locked: set<JobId>, pinned: map<JobId, Day>,
    choose: Chooser, planDay: DayPlan, turns: seq<Turn>)
  {
    && (turns != [] ==> turns[0].overrides == map[])
    && (forall k :: 0 <= k < |turns| ==>
          AnswersTo(world, candidates, horizon, locked, pinned, k, choose, turns[k]))
    && (forall j, k :: 0 <= j < k < |turns| && k == j + 1 ==> LeadsTo(world, horizon, planDay, j, turns[j], turns[k]))
  }

  ghost predicate LeadsTo(world: World, horizon: seq<Day>, planDay: DayPlan, round: nat, turn: Turn, next: Turn) {
    && SomeDaySpills(horizon, turn.assignment, round, planDay)
    && Teaching(world, horizon, turn.assignment, round, planDay, turn.overrides, next.overrides)
  }

  lemma NoSpillIff(horizon: seq<Day>, assignment: seq<Placing>, round: nat, planDay: DayPlan, spilled: seq<JobId>)
    requires forall x :: x in spilled <==> exists d :: d in horizon && MissedBy(assignment, round, planDay, d, x)
    ensures spilled == [] <==> !SomeDaySpills(horizon, assignment, round, planDay)
  {
    if spilled != [] {
      assert spilled[0] in spilled;
      var d :| d in horizon && MissedBy(assignment, round, planDay, d, spilled[0]);
      assert Spills(assignment, round, planDay, d);
    }
    if d :| d in horizon && Spills(assignment, round, planDay, d) {
      var x :| MissedBy(assignment, round, planDay, d, x);
      assert x in spilled;
    }
  }

  lemma OneMoreTurn(
    world: World, candidates: seq<Job>, horizon: seq<Day>, locked: set<JobId>, pinned: map<JobId, Day>,
    choose: Chooser, planDay: DayPlan, turns: seq<Turn>, next: Turn)
    requires Rounds(world, candidates, horizon, locked, pinned, choose, planDay, turns)
    requires AnswersTo(world, candidates, horizon, locked, pinned, |turns|, choose, next)
    requires turns == [] ==> next.overrides == map[]
    requires turns != [] ==> LeadsTo(world, horizon, planDay, |turns| - 1, turns[|turns| - 1], next)
    ensures Rounds(world, candidates, horizon, locked, pinned, choose, planDay, turns + [next])
  {
    var all := turns + [next];
    forall j, k | 0 <= j < k < |all| && k == j + 1 ensures LeadsTo(world, horizon, planDay, j, all[j], all[k]) {
      assert all[j] == turns[j];
      assert k < |turns| ==> all[k] == turns[k];
    }
  }

  /** Where the rounds have got to: what is next believed of the days, the last assignment, and whether it is the one
      that spills nothing. */
  ghost predicate SoFar(
    world: World, candidates: seq<Job>, horizon: seq<Day>, locked: set<JobId>, pinned: map<JobId, Day>,
    choose: Chooser, planDay: DayPlan, turns: seq<Turn>, now: Turn, settled: bool)
  {
    && Rounds(world, candidates, horizon, locked, pinned, choose, planDay, turns)
    && if turns == [] then !settled && now.overrides == map[]
       else
         var last, round := turns[|turns| - 1], |turns| - 1;
         && last.assignment == now.assignment
         && (settled <==> !SomeDaySpills(horizon, now.assignment, round, planDay))
         && Teaching(world, horizon, now.assignment, round, planDay, last.overrides, now.overrides)
  }

  lemma OneMoreRound(
    world: World, candidates: seq<Job>, horizon: seq<Day>, locked: set<JobId>, pinned: map<JobId, Day>,
    choose: Chooser, planDay: DayPlan, turns: seq<Turn>, now: Turn, next: Turn, settled: bool)
    requires SoFar(world, candidates, horizon, locked, pinned, choose, planDay, turns, now, false)
    requires AnswersTo(world, candidates, horizon, locked, pinned, |turns|, choose,
                       Turn(now.overrides, next.assignment))
    requires settled <==> !SomeDaySpills(horizon, next.assignment, |turns|, planDay)
    requires Teaching(world, horizon, next.assignment, |turns|, planDay, now.overrides, next.overrides)
    ensures SoFar(world, candidates, horizon, locked, pinned, choose, planDay,
                  turns + [Turn(now.overrides, next.assignment)], next, settled)
  {
    var turn := Turn(now.overrides, next.assignment);
    if turns != [] {
      assert LeadsTo(world, horizon, planDay, |turns| - 1, turns[|turns| - 1], turn);
    }
    OneMoreTurn(world, candidates, horizon, locked, pinned, choose, planDay, turns, turn);
    assert (turns + [turn])[|turns|] == turn;
  }

  /** One turn of the loop. */
  method PlanRound(
    world: World, candidates: seq<Job>, horizon: seq<Day>, ghost base: Day -> Capacity,
    locked: set<JobId>, pinned: map<JobId, Day>, round: nat, overrides: Overrides, choose: Chooser, planDay: DayPlan)
    returns (assignment: seq<Placing>, unplaceable: seq<JobId>, days: seq<DayResult>, spilled: seq<JobId>,
    learned: Overrides)
    requires WellKeyed(world) && Distinct(horizon) && Known(world, candidates)
    requires ChoicesOk(world, horizon, Unlocked(candidates, locked), base, choose) && DaysAccount(world, planDay)
    ensures AfterRounds(world, candidates, horizon, locked, pinned, planDay, assignment, unplaceable, days, round + 1)
    ensures AnswersTo(world, candidates, horizon, locked, pinned, round, choose, Turn(overrides, assignment))
    ensures spilled == [] <==> !SomeDaySpills(horizon, assignment, round, planDay)
    ensures Teaching(world, horizon, assignment, round, planDay, overrides, learned)
    ensures spilled == [] ==> learned == overrides
    ensures locked == {} && spilled != [] ==> Room(base, learned, horizon) < Room(base, overrides, horizon)
  {
    var jobs := Unlocked(candidates, locked);
    forall i | 0 <= i < |jobs| ensures jobs[i].id in world.jobs && world.jobs[jobs[i].id] == jobs[i] {
      assert jobs[i] in candidates;
    }
    KnownMeansOneRecord(world, jobs);
    ghost var choice := choose(round, overrides);
    var placed;
    placed, unplaceable := AssignDays(world, jobs, horizon, overrides, round, choose);
    var order := SortedKeys(locked);
    assignment := placed + Pinnings(order, pinned);
    RoundAssigns(world, candidates, horizon, locked, order, pinned, choice);
    days, spilled, learned := PlanDays(world, horizon, assignment, round, planDay, overrides);
    NoSpillIff(horizon, assignment, round, planDay, spilled);
    DaysHoldTogether(world, horizon, assignment, round, planDay);
    NoSpillNoLesson(world, horizon, assignment, round, planDay, overrides);
    if locked == {} {
      assert forall i :: 0 <= i < |order| ==> order[i] in order;
      assert assignment == placed;
      RoundUsesRoom(world, horizon, jobs, base, choose, round, planDay, overrides);
    }
  }

  /** The same turn among those before it. */
  method NextRound(
    world: World, candidates: seq<Job>, horizon: seq<Day>, ghost base: Day -> Capacity, locked: set<JobId>,
    pinned: map<JobId, Day>, overrides: Overrides, choose: Chooser, planDay: DayPlan, round: nat,
    ghost turns: seq<Turn>, ghost last: seq<Placing>)
    returns (assignment: seq<Placing>, unplaceable: seq<JobId>, days: seq<DayResult>, settled: bool, learned: Overrides)
    requires WellKeyed(world) && Distinct(horizon) && Known(world, candidates) && round == |turns|
    requires ChoicesOk(world, horizon, Unlocked(candidates, locked), base, choose) && DaysAccount(world, planDay)
    requires SoFar(world, candidates, horizon, locked, pinned, choose, planDay, turns, Turn(overrides, last), false)
    ensures AfterRounds(world, candidates, horizon, locked, pinned, planDay, assignment, unplaceable, days, round + 1)
    ensures SoFar(world, candidates, horizon, locked, pinned, choose, planDay, turns + [Turn(overrides, assignment)],
                  Turn(learned, assignment), settled)
    ensures locked == {} ==> Room(base, learned, horizon) <= Room(base, overrides, horizon) - if settled then 0 else 1
  {
    var spilled;
    assignment, unplaceable, days, spilled, learned :=
      PlanRound(world, candidates, horizon, base, locked, pinned, round, overrides, choose, planDay);
    settled := spilled == [];
    OneMoreRound(world, candidates, horizon, locked, pinned, choose, planDay, turns, Turn(overrides, last),
                 Turn(learned, assignment), settled);
  }

  /** The routes are those of the days, planned in the last round from the assignment, and hold together. */
  ghost predicate ComesFrom(world: World, horizon: seq<Day>, planDay: DayPlan, result: HorizonResult) {
    && result.routes == AllRoutes(result.days)
    && DaysHold(world, horizon, result.assignment, result.days) && Distinct(Keys(result.assignment))
    && result.days == ResultsOf(horizon, result.assignment, Max(result.rounds - 1, 0), planDay)
  }

  lemma Concluded(
    world: World, candidates: seq<Job>, horizon: seq<Day>, locked: set<JobId>, pinned: map<JobId, Day>,
    planDay: DayPlan, unplaceable: seq<JobId>, result: HorizonResult)
    requires AfterRounds(world, candidates, horizon, locked, pinned, planDay,
                         result.assignment, unplaceable, result.days, result.rounds)
    requires result.routes == AllRoutes(result.days)
    requires Gathered(result.days, RoutedJobs(result.routes), unplaceable, IdsOfJobs(candidates), result.unserved)
    ensures Conserved(world, candidates, horizon, locked, pinned, result)
    ensures ComesFrom(world, horizon, planDay, result)
  {
    NothingLost(world, candidates, horizon, locked, pinned, result, unplaceable);
  }

  /** Round after round, until one spills nothing or the limit is reached. With nothing locked the rounds end on their
      own: there are at most as many as the horizon has crew-minutes, and one, whatever `maxRounds` is. */
  method PlanRounds(
    world: World, candidates: seq<Job>, horizon: seq<Day>, ghost base: Day -> Capacity,
    locked: set<JobId>, pinned: map<JobId, Day>, maxRounds: nat, choose: Chooser, planDay: DayPlan)
    returns (assignment: seq<Placing>, unplaceable: seq<JobId>, days: seq<DayResult>, rounds: nat,
    ghost turns: seq<Turn>, ghost next: Turn, settled: bool)
    requires WellKeyed(world) && Distinct(horizon) && Known(world, candidates)
    requires ChoicesOk(world, horizon, Unlocked(candidates, locked), base, choose)
    requires DaysAccount(world, planDay)
    ensures AfterRounds(world, candidates, horizon, locked, pinned, planDay, assignment, unplaceable, days, rounds)
    ensures |turns| == rounds <= maxRounds && (rounds < maxRounds ==> settled)
    ensures next.assignment == assignment
    ensures SoFar(world, candidates, horizon, locked, pinned, choose, planDay, turns, next, settled)
    ensures locked == {} ==> rounds <= Room(base, map[], horizon) + 1
  {
    var overrides: Overrides := map[];
    assignment, unplaceable, days, rounds, turns, settled := [], [], [], 0, [], false;
    next := Turn(map[], []);
    DaysHoldTogether(world, horizon, [], 0, planDay);
    NothingAssignedNothingDone(horizon, 0, planDay);
    while rounds < maxRounds && !settled
      invariant |turns| == rounds <= maxRounds && next == Turn(overrides, assignment)
      invariant AfterRounds(world, candidates, horizon, locked, pinned, planDay, assignment, unplaceable, days, rounds)
      invariant SoFar(world, candidates, horizon, locked, pinned, choose, planDay, turns, next, settled)
      invariant locked == {} ==>
                  rounds + Room(base, overrides, horizon) <= Room(base, map[], horizon) + if settled then 1 else 0
      decreases maxRounds - rounds
    {
      ghost var before := overrides;
      assignment, unplaceable, days, settled, overrides :=
        NextRound(world, candidates, horizon, base, locked, pinned, overrides, choose, planDay, rounds, turns,
                  assignment);
      turns, next := turns + [Turn(before, assignment)], Turn(overrides, assignment);
      rounds := rounds + 1;
    }
  }

  /** Nothing is lost or doubled through any number of rounds, each taught by the one before, the last of which spills
      nothing unless the limit was reached. */
  method PlanHorizon(
    world: World, candidates: seq<Job>, horizon: seq<Day>, ghost base: Day -> Capacity,
    lockedIds: seq<JobId>, pinned: map<JobId, Day>, maxRounds: nat, choose: Chooser, planDay: DayPlan)
    returns (result: HorizonResult, ghost turns: seq<Turn>)
    requires WellKeyed(world) && Distinct(horizon) && Known(world, candidates)
    requires ChoicesOk(world, horizon, Unlocked(candidates, SetOf(lockedIds)), base, choose)
    requires DaysAccount(world, planDay)
    ensures Conserved(world, candidates, horizon, SetOf(lockedIds), pinned, result)
    ensures ComesFrom(world, horizon, planDay, result)
    ensures SortedBy(result.released, StringLe) && Distinct(result.released)
    ensures forall x :: x in result.released <==> x in ReleasedBy(result.days)
    ensures result.rounds == |turns| <= maxRounds
    ensures Rounds(world, candidates, horizon, SetOf(lockedIds), pinned, choose, planDay, turns)
    ensures turns != [] ==> result.assignment == turns[|turns| - 1].assignment
    ensures result.rounds < maxRounds ==>
              turns != [] && !SomeDaySpills(horizon, result.assignment, LastRound(result), planDay)
    ensures lockedIds == [] ==> result.rounds <= Room(base, map[], horizon) + 1
  {
    var locked := SetOf(lockedIds);
    var assignment, unplaceable, days, rounds, settled;
    ghost var next;
    assignment, unplaceable, days, rounds, turns, next, settled :=
      PlanRounds(world, candidates, horizon, base, locked, pinned, maxRounds, choose, planDay);
    var routes := AllRoutes(days);
    var unserved := Gather(days, RoutedJobs(routes), unplaceable, candidates);
    var released := SortedKeys(ReleasedBy(days));
    result := HorizonResult(routes, unserved, released, assignment, days, rounds);
    Concluded(world, candidates, horizon, locked, pinned, planDay, unplaceable, result);
  }
}
