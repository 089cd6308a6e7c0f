/** One small day, with two vans and a promised job, and variations on it: hours, depot and start decide whether the
    hypotheses of the agreement hold, so it speaks of something, or which of them fails and what that costs. */
module Witness {
  import opened Collections
  import opened Domain
  import opened DayPlanner
  import opened FreeInterval
  import opened Agreement
  import opened Buckets
  import I = Invariants
  import PlanDay

  const HERE := Location(0.0, 0.0)
  const SITE := Location(0.0, 1.0)
  const FAR := Location(9.0, 9.0)

  /** Monday from six to two. */
  const SHIFT: DayHours := RawHours(0, 360, 840)

  /** Early, morning peak and midday: the buckets the shift touches. */
  const PROBES: seq<Moment> := [1800, 1920, 2160]

  /** What varies from day to day: whether the fitter is away from one o'clock on, overtime being allowed; an hour the
      fitter agreed to stay till, the job's window, whether its promise is given up, the second van's depot, and when
      its crew sets out, begins the job and is home. */
  datatype Case = Case(
    away: bool, agreed: Option<Moment>, window: Window, released: bool, depot: Location, out: int, begins: int,
    home: int)

  const FITTER := Worker("w", "Wes", {ResidentialGlazing}, [SHIFT], true)

  const SPARE := Van("u", 4, map[], HERE)

  function Truck(c: Case): Van { Van("v", 4, map[], c.depot) }

  function Pane(c: Case): Job {
    Job("j", "Jo", SITE, None, {ResidentialGlazing}, 1, 60, [], [c.window], Confirmed, 0, 0, 0)
  }

  const AWAY := Unavailability(1440 + 780, None, "dentist")

  function Stretch(c: Case): (int, int) { (360, if c.away then 780 else 840) }

  /** Overtime by the two hours the business allows, or none; and every bucket the shift touches sampled. */
  function ParamsOf(c: Case): Params { Params(c.away, 120, None) }

  /** Monday, day 1. */
  function Monday(c: Case): World {
    World(0, map["w" := FITTER], map["u" := SPARE, "v" := Truck(c)], map["j" := Pane(c)],
          map["w" := if c.away then [AWAY] else []], map[], map[],
          if c.agreed.Some? then map[("w", 1) := c.agreed.value] else map[], map[], map[], [], None, 0)
  }

  function Posed(c: Case): Problem {
    Problem(1, [Pane(c)], [FITTER], [Stretch(c)], [c.agreed], [SPARE, Truck(c)],
            [(0, 1440), (0, 1440)], [[0, 10], [10, 0]], if c.away then 120 else 0, {}, [{}])
  }

  /** The second van goes out with the fitter; the first stays in. */
  function Answer(c: Case): Assignment {
    Assignment(
      (i: nat, k: nat) => k == 1,
      (j: nat, k: nat) => k == 1,
      (j: nat) => true,
      (j: nat) => c.released,
      (j: nat, k: nat) => c.begins,
      (k: nat) => k == 1,
      (k: nat) => c.out,
      (k: nat) => c.home,
      (k: nat, i: nat, j: nat) => k == 1 && i != j,
      (j: nat, k: nat, w: nat) => k == 1 && !c.released)
  }

  /** A window on that day, and times that leave the matrix's ten minutes either way. */
  predicate Sound(c: Case) {
    && 360 <= c.out && c.out + 10 <= c.begins && c.begins + 70 <= c.home < MINUTES_PER_DAY
    && (if c.agreed.Some? then 1440 + c.home <= c.agreed.value < 2880 else c.home <= Stretch(c).1)
    && 1440 <= c.window.start && c.window.end < 2880 && c.window.start < c.window.end
    && (!c.released ==> c.window.start <= 1440 + c.begins && 1440 + c.begins + 60 <= c.window.end)
  }

  // ------------------------------------------------------------ the day is posed

  lemma WithoutOutages(shift: (int, int), s: (int, int))
    requires shift.0 < shift.1
    ensures IsLargestFree([], DayStart(1), shift, Some(s)) <==> s == shift
  {
    assert Free([], DayStart(1), shift, shift.0, shift.1);
  }

  /** Away from one o'clock on, the fitter's longest stretch is the morning. */
  lemma AwayFromOne(s: (int, int))
    ensures IsLargestFree([AWAY], DayStart(1), (360, 840), Some(s)) <==> s == (360, 780)
  {
    assert forall m :: BlockedAt([AWAY], DayStart(1), m) <==> 780 <= m < 1440 by {
      assert [AWAY][0] == AWAY;
    }
    assert Free([AWAY], DayStart(1), (360, 840), 360, 780);
    forall a, b | Free([AWAY], DayStart(1), (360, 840), a, b) ensures 360 <= a < b <= 780 {
      assert !BlockedAt([AWAY], DayStart(1), b - 1);
    }
  }

  lemma TheFitterWorks(c: Case, s: (int, int))
    ensures Usable(Monday(c), 1, FITTER, s) <==> s == Stretch(c)
  {
    assert HoursFor(FITTER, Weekday(1)) == Some(SHIFT);
    WithoutOutages((360, 840), s);
    AwayFromOne(s);
  }

  lemma VansRun(c: Case, v: Van, s: (int, int))
    ensures UsableVan(Monday(c), 1, v, s) <==> s == (0, 1440)
  {
    WithoutOutages((0, 1440), s);
  }

  lemma CrewIsPosed(c: Case)
    ensures WorkersPosed(Monday(c), 1, Posed(c))
  {
    TheFitterWorks(c, Stretch(c));
    assert IdsOf([FITTER])[0] == "w";
    forall id | id in Monday(c).workers ensures id in IdsOf([FITTER]) {}
  }

  lemma VansArePosed(c: Case)
    ensures VansPosed(Monday(c), 1, Posed(c))
  {
    VansRun(c, SPARE, (0, 1440));
    VansRun(c, Truck(c), (0, 1440));
    var ids := VanIdsOf([SPARE, Truck(c)]);
    assert ids[0] == "u" && ids[1] == "v" && 'u' < 'v';
    forall id | id in Monday(c).vans ensures id in ids {}
  }

  lemma TheJobIsEligible(c: Case)
    requires Sound(c)
    ensures Eligible(Monday(c), 1, ["j"]) == ["j"]
  {
    assert ["j"][..0] == [];
    assert Pane(c).windows[0].start < DayStart(1) + MINUTES_PER_DAY && DayStart(1) < Pane(c).windows[0].end;
    assert IsCandidate(Monday(c), 1, "j");
    assert Eligible(Monday(c), 1, []) == [];
  }

  /** Every drive to or from the site takes ten minutes at each probe. */
  ghost predicate TenMinutes(travel: Travel) {
    forall probe :: probe in PROBES ==>
      travel(HERE, SITE, probe).minutes == 10 && travel(SITE, HERE, probe).minutes == 10
  }

  lemma {:induction false} SlowestIsTen(travel: Travel, from: Location, to: Location, probes: seq<Moment>)
    requires forall probe :: probe in probes ==> travel(from, to, probe).minutes == 10
    ensures WorstLeg(travel, from, to, probes) == if probes == [] then 0 else 10
  {
    if probes != [] {
      var last := probes[|probes| - 1];
      assert last in probes && travel(from, to, last).minutes == 10;
      SlowestIsTen(travel, from, to, probes[..|probes| - 1]);
    }
  }

  lemma RoadsArePosed(c: Case, travel: Travel)
    requires TenMinutes(travel)
    ensures MatrixPosed(travel, PROBES, Posed(c))
  {
    SlowestIsTen(travel, HERE, SITE, PROBES);
    SlowestIsTen(travel, SITE, HERE, PROBES);
  }

  lemma ProbesArePosed(c: Case)
    ensures ProbesPosed(ParamsOf(c), PROBES, Posed(c))
  {
    assert PROBES[0] == 1800 && PROBES[1] == 1920 && PROBES[2] == 2160;
    forall b, i, j | b in BUCKETS && 0 <= i < 1 && 0 <= j < 1
      && Posed(c).span[i].0 < b.1 && b.0 < Posed(c).span[j].1 + Posed(c).overtime
      ensures DayStart(1) + b.2 in PROBES
    {
    }
  }

  lemma DayIsPosed(c: Case, travel: Travel)
    requires Sound(c) && TenMinutes(travel)
    ensures Poses(Monday(c), travel, 1, ["j"], map[], ParamsOf(c), PROBES, Posed(c))
  {
    CrewIsPosed(c);
    VansArePosed(c);
    WorkIsPosed(c);
    RoadsArePosed(c, travel);
    ProbesArePosed(c);
  }

  lemma WorkIsPosed(c: Case)
    requires Sound(c)
    ensures JobsPosed(Monday(c), 1, ["j"], Posed(c)) && PinsPosed(Monday(c), 1, map[], Posed(c))
  {
    TheJobIsEligible(c);
  }

  // ----------------------------------------------------- the answer is feasible

  lemma AnswerCounts(c: Case, k: nat)
    requires k < 2
    ensures Headcount(Answer(c), k, 1) == k && CrewsVisiting(Answer(c), 0, 2) == 1
    ensures HoldersAboard(Posed(c), Answer(c), 1, ResidentialGlazing, 1) == 1
    ensures PaneLoad(Posed(c), Answer(c), k, 1) == k
  {
    var a := Answer(c);
    assert Headcount(a, k, 0) == 0 && CrewsVisiting(a, 0, 0) == 0 && CrewsVisiting(a, 0, 1) == 0;
    assert HoldersAboard(Posed(c), a, 1, ResidentialGlazing, 0) == 0;
    assert PaneLoad(Posed(c), a, k, 0) == 0;
  }

  lemma AnswerTours(c: Case, k: nat)
    requires Sound(c) && k < 2
    ensures Circuit(Posed(c), Answer(c), k) && TravelRules(Posed(c), Answer(c), k)
  {
    var p, a := Posed(c), Answer(c);
    forall i | 0 <= i <= 1 && OnTour(a, k, i) ensures SomeArcFrom(p, a, k, i) && SomeArcTo(p, a, k, i) {
      assert a.arc(k, i, 1 - i) && a.arc(k, 1 - i, i);
    }
    forall part: set<nat>, i | ClosedPart(p, a, k, part) && 0 <= i <= |p.jobs| && OnTour(a, k, i) ensures i in part {
      var x :| x in part;
      assert x != i ==> a.arc(k, x, i);
    }
  }

  lemma AnswerStaffs(c: Case)
    requires Sound(c)
    ensures AssignmentRules(Posed(c), Answer(c)) && HourRules(Posed(c), Answer(c))
    ensures FitnessRules(Posed(c), Answer(c)) && CapacityRules(Posed(c), Answer(c))
  {
    AnswerCounts(c, 0);
    AnswerCounts(c, 1);
  }

  lemma AnswerServes(c: Case)
    ensures ServiceRules(Posed(c), Answer(c))
  {
    AnswerCounts(c, 0);
  }

  lemma AnswerFitsTheWindow(c: Case)
    requires Sound(c)
    ensures WindowRules(Posed(c), Answer(c))
  {
    var p, a := Posed(c), Answer(c);
    assert p.jobs[0].windows[0] == c.window;
    if !c.released {
      assert SelectorMeans(p, a, 0, 1, 0);
      assert a.selector(0, 1, 0);
    }
  }

  lemma AnswerIsFeasible(c: Case)
    requires Sound(c)
    ensures Feasible(Posed(c), Answer(c))
  {
    AnswerStaffs(c);
    AnswerServes(c);
    AnswerFitsTheWindow(c);
    AnswerTours(c, 0);
    AnswerTours(c, 1);
  }
  // ---------------------------------------------------------- the days that agree

  /** Ten minutes, or an hour to and from the far depot, at any time. */
  function Roads(): Travel {
    (from: Location, to: Location, t: Moment) => Leg(if from == FAR || to == FAR then 60 else 10, 1.0)
  }

  /** Ten minutes, but half an hour in the afternoon peak. */
  function Jams(): Travel {
    (from: Location, to: Location, t: Moment) => Leg(if BucketOf(t) == 3 then 30 else 10, 1.0)
  }

  const FAIR := Case(false, None, Window(1440 + 540, 1440 + 720, Hard), false, HERE, 480, 540, 610)

  /** The fitter leaves for good at one, overtime being allowed, and is home from the job by ten past ten. */
  const TRIMMED := FAIR.(away := true)

  /** As late as the given-up promise below, of a soft window. */
  const LET_GO := Case(false, None, Window(1440 + 540, 1440 + 720, Soft), true, HERE, 690, 700, 770)

  /** The hypotheses can all be met at once: the day's one route serves the promised job, and passes. */
  lemma TheDayAgrees(plan: Plan)
    requires plan.routes == DayRoutes(Posed(FAIR), Answer(FAIR), Roads())
    ensures I.PlanOk(plan, Monday(FAIR), Roads(), I.Config(1, false, {}))
    ensures "j" in RoutedJobs(plan.routes)
  {
    SteadyCasePasses(FAIR, I.Config(1, false, {}), plan);
    PlanDay.VisitedIsRouted(Posed(FAIR), Answer(FAIR), Roads(), 0, 1);
  }

  /** And with overtime allowed, though the planner would have kept the fitter past the hour of leaving. */
  lemma TheTrimmedDayAgrees(plan: Plan)
    requires plan.routes == DayRoutes(Posed(TRIMMED), Answer(TRIMMED), Roads())
    ensures I.PlanOk(plan, Monday(TRIMMED), Roads(), I.Config(1, true, {}))
    ensures "j" in RoutedJobs(plan.routes)
    ensures !ReachIsClear(Monday(TRIMMED), Posed(TRIMMED), I.Config(1, true, {}), 0)
  {
    SteadyCasePasses(TRIMMED, I.Config(1, true, {}), plan);
    PlanDay.VisitedIsRouted(Posed(TRIMMED), Answer(TRIMMED), Roads(), 0, 1);
    assert Covers(AWAY, 1440 + 780, 1440 + 900);
    assert WorkerOutages(Monday(TRIMMED), "w")[0] == AWAY;
  }

  /** A promise of a soft window that was given up passes when the checker is told, and only then. */
  lemma ToldOfTheRelease(plan: Plan)
    requires plan.routes == DayRoutes(Posed(LET_GO), Answer(LET_GO), Roads())
    ensures I.PlanOk(plan, Monday(LET_GO), Roads(), I.Config(1, false, {"j"}))
    ensures forall config: I.Config :: "j" !in config.released ==> !I.PlanOk(plan, Monday(LET_GO), Roads(), config)
  {
    LetGoPasses(plan);
    forall config: I.Config | "j" !in config.released ensures !I.PlanOk(plan, Monday(LET_GO), Roads(), config) {
      LetGoUntold(plan, config);
    }
  }

  lemma LetGoPasses(plan: Plan)
    requires plan.routes == DayRoutes(Posed(LET_GO), Answer(LET_GO), Roads())
    ensures I.PlanOk(plan, Monday(LET_GO), Roads(), I.Config(1, false, {"j"}))
  {
    LettingGoIsSteady();
    SteadyCasePasses(LET_GO, I.Config(1, false, {"j"}), plan);
  }

  lemma LetGoUntold(plan: Plan, config: I.Config)
    requires plan.routes == DayRoutes(Posed(LET_GO), Answer(LET_GO), Roads()) && "j" !in config.released
    ensures !I.PlanOk(plan, Monday(LET_GO), Roads(), config)
  {
    LatePlanIsRefused(LET_GO, Roads(), config, plan);
  }

  lemma LettingGoIsSteady()
    ensures Steady(LET_GO, I.Config(1, false, {"j"}))
  {
    assert LET_GO.window in Pane(LET_GO).windows;
  }

  /** One depot, nobody kept late, and a promise that is kept or known to be released. */
  ghost predicate Steady(c: Case, config: I.Config) {
    && c.agreed.None? && c.depot == HERE && c.home <= Stretch(c).1
    && (c.released ==> WindowHolds(Pane(c), 1440 + c.begins, config.released))
  }

  lemma SteadyCasePasses(c: Case, config: I.Config, plan: Plan)
    requires Sound(c) && Steady(c, config)
    requires plan.routes == DayRoutes(Posed(c), Answer(c), Roads())
    ensures Feasible(Posed(c), Answer(c)) && I.PlanOk(plan, Monday(c), Roads(), config)
  {
    AnswerIsFeasible(c);
    SteadyAnswerPasses(c, config, plan);
  }

  lemma SteadyAnswerPasses(c: Case, config: I.Config, plan: Plan)
    requires Sound(c) && Steady(c, config) && Feasible(Posed(c), Answer(c))
    requires plan.routes == DayRoutes(Posed(c), Answer(c), Roads())
    ensures I.PlanOk(plan, Monday(c), Roads(), config)
  {
    DayIsPosed(c, Roads());
    DayIsSteady(c, config);
    SteadyAgrees(Monday(c), Roads(), ["j"], ParamsOf(c), Posed(c), Answer(c), config, plan);
  }

  lemma DayIsSteady(c: Case, config: I.Config)
    requires Steady(c, config)
    ensures Steadily(Monday(c), Roads(), Posed(c), Answer(c), config)
  {
  }

  ghost predicate Steadily(world: World, travel: Travel, p: Problem, a: Assignment, config: I.Config) {
    && Sized(p) && WellKeyed(world) && OutagesAreReal(world) && TimeIndependent(travel)
    && OneDepot(p) && RequestedBefore(p)
    && (forall k: nat :: k < |p.vans| && Emitted(p, a, k) ==>
          HomeInStretch(p, a, k) && ReleasedSuit(p, a, k, config.released))
    && forall j :: 0 <= j < |p.jobs| && p.jobs[j].commitment.Confirmed? && p.jobs[j].id !in config.released ==>
         |p.jobs[j].windows| <= 1
  }

  lemma SteadyAgrees(world: World, travel: Travel, ids: seq<JobId>, params: Params, p: Problem, a: Assignment,
                     config: I.Config, plan: Plan)
    requires Distinct(ids) && plan.routes == DayRoutes(p, a, travel)
    ensures Poses(world, travel, 1, ids, map[], params, PROBES, p) && Feasible(p, a)
            && Steadily(world, travel, p, a, config) ==>
              I.PlanOk(plan, world, travel, config)
  {
    if Poses(world, travel, 1, ids, map[], params, PROBES, p) && Feasible(p, a)
      && Steadily(world, travel, p, a, config)
    {
      SteadyDayAgrees(world, travel, 1, ids, map[], params, PROBES, p, a, config, plan);
    }
  }

  // ------------------------------------------------------ the days that do not

  /** The second van's depot is an hour out, and the job's window shuts at ten past nine. */
  const OUTLYING := Case(false, None, Window(1440 + 480, 1440 + 550, Hard), false, FAR, 480, 490, 560)

  /** The promise of a visit by noon is given up, and the job begun at twenty to. */
  const GIVEN_UP := Case(false, None, Window(1440 + 540, 1440 + 720, Hard), true, HERE, 690, 700, 770)

  /** The fitter agreed to stay till five and sets out at three, an hour past the shift and into the afternoon peak. */
  const KEPT_LATE := Case(false, Some(1440 + 1020), Window(1440 + 540, 1440 + 970, Hard), false, HERE, 900, 910, 980)

  /** The crew reaches the site too late for the job to end within its window. */
  predicate Late(c: Case, travel: Travel) {
    1440 + c.out + travel(c.depot, SITE, 1440 + c.out).minutes + 60 > c.window.end
  }

  lemma TheTourIsOneJob(c: Case)
    requires Sound(c)
    ensures SequencedJobs(Posed(c), Answer(c), 1) == [Pane(c)] && Emitted(Posed(c), Answer(c), 1)
  {
    var p, a := Posed(c), Answer(c);
    SequenceFacts(p, a, 1);
    var s := Sequence(p, a, 1);
    assert a.visit(0, 1);
    assert 0 in s;
    assert |s| == 1 by {
      forall i | 0 <= i < |s| ensures s[i] == 0 {}
    }
    AnswerCounts(c, 1);
    assert |CrewIds(p, a, 1, 1)| == 1;
  }

  /** The day is posed and its answer feasible, yet whatever the checker allows it refuses the plan. */
  ghost predicate Refused(c: Case, travel: Travel) {
    && Poses(Monday(c), travel, 1, ["j"], map[], ParamsOf(c), PROBES, Posed(c))
    && Feasible(Posed(c), Answer(c))
    && forall config: I.Config, plan: Plan :: plan.routes == DayRoutes(Posed(c), Answer(c), travel) ==>
                                                !I.PlanOk(plan, Monday(c), travel, config)
  }

  lemma LateIsRefused(c: Case, travel: Travel)
    requires Sound(c) && TenMinutes(travel) && c.window.hardness.Hard? && Late(c, travel)
    ensures Refused(c, travel)
  {
    DayIsPosed(c, travel);
    AnswerIsFeasible(c);
    forall config: I.Config, plan: Plan | plan.routes == DayRoutes(Posed(c), Answer(c), travel)
      ensures !I.PlanOk(plan, Monday(c), travel, config)
    {
      LatePlanIsRefused(c, travel, config, plan);
    }
  }

  lemma LatePlanIsRefused(c: Case, travel: Travel, config: I.Config, plan: Plan)
    requires Sound(c) && Late(c, travel)
    requires c.window.hardness.Hard? || "j" !in config.released
    requires plan.routes == DayRoutes(Posed(c), Answer(c), travel)
    ensures !I.PlanOk(plan, Monday(c), travel, config)
  {
    TheTourIsOneJob(c);
    forall t | t >= 1440 + c.out + travel(c.depot, SITE, 1440 + c.out).minutes
      ensures !WindowHolds(Pane(c), t, config.released)
    {
    }
    TooLateIsRefused(Monday(c), travel, Posed(c), Answer(c), config, 1, plan);
  }

  /** A crew from an outlying depot: the matrix measures from the first, and the plan is refused. */
  lemma FarDepotsAreMisjudged()
    ensures Refused(OUTLYING, Roads()) && !DepotWithin(Posed(OUTLYING), Answer(OUTLYING), Roads(), 1)
  {
    assert !DepotNear(Posed(OUTLYING), Answer(OUTLYING), Roads(), 1, 1);
    LateIsRefused(OUTLYING, Roads());
  }

  /** A promise the solver gives up needs no window, but the checker still asks for the hard one. */
  lemma GivingUpIsNotEnough()
    ensures Refused(GIVEN_UP, Roads())
    ensures forall released :: !ReleasedSuit(Posed(GIVEN_UP), Answer(GIVEN_UP), 1, released)
  {
    assert Answer(GIVEN_UP).visit(0, 1);
    forall released: set<JobId> ensures !ReleasedSuit(Posed(GIVEN_UP), Answer(GIVEN_UP), 1, released) {
      assert !WindowHolds(Pane(GIVEN_UP), 1440 + 700, released);
    }
    LateIsRefused(GIVEN_UP, Roads());
  }

  /** Roads that depend on the bucket alone, a crew out past every hour the probes were taken for, and the matrix
      wrong about its drive. */
  ghost predicate MissedByProbes(c: Case, travel: Travel) {
    && Bucketed(travel)
    && !HomeInProbedHours(Posed(c), Answer(c), 1)
    && !Pessimistic(Posed(c), Answer(c), travel, 1)
  }

  lemma DrivenInThePeak(c: Case)
    requires Sound(c) && c.home > 840 && BucketOf(1440 + c.out) == 3
    ensures MissedByProbes(c, Jams())
  {
    assert !DriveBounded(Posed(c), Answer(c), Jams(), 1, 0, 1, 1440 + c.out);
  }

  /** An agreed hour keeps a crew out in a bucket no probe sampled, and the plan is refused. */
  lemma AgreedHoursAreNotSampled()
    ensures Refused(KEPT_LATE, Jams()) && MissedByProbes(KEPT_LATE, Jams())
  {
    assert BucketOf(1440 + 900) == 3;
    LateIsRefused(KEPT_LATE, Jams());
    DrivenInThePeak(KEPT_LATE);
  }

  /** Any time from Monday to Friday. */
  const ANY_TIME := FAIR.(window := Window(1440, 6 * 1440, Hard))

  /** A job that may be done on any of five days is a candidate for each of them, and no answer for any day serves it
      without giving up its promise. */
  lemma AnyTimeIsNeverServed(p: Problem, a: Assignment, j: nat, k: nat)
    requires Feasible(p, a) && j < |p.jobs| && k < |p.vans| && p.jobs[j] == Pane(ANY_TIME) && !a.released(j)
    ensures !a.visit(j, k)
    ensures forall d :: 1 <= d <= 5 ==> IsCandidate(Monday(ANY_TIME), d, "j")
  {
    forall d | 1 <= d <= 5 ensures IsCandidate(Monday(ANY_TIME), d, "j") {
      var window := Pane(ANY_TIME).windows[0];
      assert window.start < DayStart(d) + MINUTES_PER_DAY && DayStart(d) < window.end;
    }
    if a.visit(j, k) {
      ServedInReach(p, a, j, k);
    }
  }

  /** A day whose solver finds nothing breaks the promise and lists no broken promise. */
  method NobodyIsTold() returns (result: DayResult)
    ensures Pane(FAIR).commitment.Confirmed? && "j" in result.unserved
    ensures result.routes == [] && result.released == []
  {
    var p, probes;
    result, p, probes :=
      PlanDay.PlanDay(Monday(FAIR), Roads(), 1, ["j"], map[], {}, ParamsOf(FAIR), (q: Problem) => None);
    assert PlanDay.AnswersFor(Monday(FAIR), ["j"], "j");
  }
}
