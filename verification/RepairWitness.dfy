/** Four days a repair meets: a crew sent home in the middle of its route, a job that ran over, a delay recorded
    after the drive, and a route home after midnight. */
module RepairWitness {
  import opened Collections
  import opened Domain
  import opened Invariants
  import opened Repair
  import opened RepairSoundness
  import opened Traffic
  import E = EventFold

  const HERE := Location(0.0, 0.0)

  /** Ten minutes from anywhere to anywhere, at any hour. */
  function Roads(): Travel { (a: Location, b: Location, t: Moment) => Leg(10, 1.0) }

  const FITTER := Worker("w", "Wes", {ResidentialGlazing}, [RawHours(0, 480, 1020)], false)

  const TRUCK := Van("v", 4, map[], HERE)

  function Pane(id: JobId, duration: positive, commitment: Commitment): Job {
    Job(id, "Jo", HERE, None, {ResidentialGlazing}, 1, duration, [], [], commitment, 0, 0, 0)
  }

  /** Monday, day 1, with the first job under way. */
  function Monday(first: Job, second: positive, out: seq<Unavailability>): World {
    World(0, map["w" := FITTER], map["v" := TRUCK], map["a" := first, "b" := Pane("b", second, Provisional)],
          map["w" := out], map[], map[], map[], map[], map[], [], None, 0)
  }

  /** On the road since eight, at the first job till `done`, at the second from ten minutes later till `end`. */
  function Outing(done: Moment, end: Moment): Route {
    Route("crew-v", 1, ["w"], "v", [Stop("a", 1440 + 490, done, 10, 1.0), Stop("b", done + 10, end, 10, 1.0)], 10, 1.0)
  }

  lemma OutingLegsHold(done: Moment, end: Moment, world: World)
    requires "v" in world.vans && "a" in world.jobs && "b" in world.jobs
    requires world.jobs["a"].duration <= done - 1930 && world.jobs["b"].duration <= end - done - 10
    ensures LegsOk(Outing(done, end), world, Roads(), 0)
  {
    AllStopsKnown(Outing(done, end).stops, world);
  }

  lemma OutingLoads(done: Moment, end: Moment, first: Job, second: positive, out: seq<Unavailability>)
    requires Panes(first) == 1 && first.materials == []
    ensures CapacityOk(Outing(done, end), Monday(first, second, out))
  {
    var route, world := Outing(done, end), Monday(first, second, out);
    var one := route.stops[..1];
    assert one == [route.stops[0]] && one[..|one| - 1] == [];
    assert PanesOn(one, world) == PanesOn([], world) + 1;
    assert route.stops[..|route.stops| - 1] == one;
    assert PanesOn(route.stops, world) == PanesOn(one, world) + 1;
    forall part ensures DemandOn(route.stops, world, part) == 0 {
      assert DemandOn(one, world, part) == 0;
    }
  }

  /** Everything but the outages is in order as long as the visits last and the clock reads early enough at the end. */
  lemma OutingPassesOtherwise(done: Moment, end: Moment, first: positive, second: positive, out: seq<Unavailability>)
    requires first <= done - 1930 && second <= end - done - 10 && ClockOf(end + 10) <= 1020
    ensures PassesOtherwise(Outing(done, end), Monday(Pane("a", first, Dispatched), second, out), Roads(),
                            Config(0, false, {}))
  {
    var route, world := Outing(done, end), Monday(Pane("a", first, Dispatched), second, out);
    OutingLegsHold(done, end, world);
    OutingLoads(done, end, Pane("a", first, Dispatched), second, out);
    assert HoursFor(FITTER, Weekday(1)) == Some(RawHours(0, 480, 1020));
    assert "w" in ["w"] && ResidentialGlazing in world.workers["w"].certifications;
    assert ResidentialGlazing in Held(world, ["w"]);
  }

  // ------------------------------------------------------------- sent home at ten

  const LOCKED := {"a"}

  /** The second job ends at twenty past ten, by when the fitter has gone home. */
  const BROKEN_OFF := Outing(1440 + 550, 1440 + 620)

  const SICK := [Unavailability(1440 + 600, None, "sick")]

  lemma FirstStopDone(done: Moment, end: Moment)
    ensures LastLocked(Outing(done, end).stops, LOCKED) == Some(0)
    ensures DrivenPart(Outing(done, end), 0).stops == [Outing(done, end).stops[0]]
  {
    assert Outing(done, end).stops[..1] == [Outing(done, end).stops[0]];
  }

  /** The fitter goes home in the middle of a route: the route no longer passes, and its driven part does. */
  lemma MidRouteOutageIsAbsorbed()
    ensures var world := Monday(Pane("a", 60, Dispatched), 60, SICK);
            && LastLocked(BROKEN_OFF.stops, LOCKED) == Some(0)
            && !RouteOk(BROKEN_OFF, world, Roads(), Config(0, false, {}))
            && RouteOk(DrivenPart(BROKEN_OFF, 0), world, Roads(), Config(0, false, {}))
  {
    var world := Monday(Pane("a", 60, Dispatched), 60, SICK);
    FirstStopDone(1440 + 550, 1440 + 620);
    OutingPassesOtherwise(1440 + 550, 1440 + 620, 60, 60, SICK);
    DrivenPartPassesNow(BROKEN_OFF, 0, world, Roads(), Config(0, false, {}));
    assert Covers(SICK[0], 1440 + 480, 1440 + 630);
    assert !IsWorkerAvailable(world, "w", 1440 + 480, 1440 + 630);
    assert BROKEN_OFF.workerIds[0] == "w";
    assert HoursFor(FITTER, Weekday(1)) == Some(RawHours(0, 480, 1020));
  }

  // ------------------------------------------------------------- a job that ran over

  lemma PassedUntilThen()
    ensures RouteOk(BROKEN_OFF, Monday(Pane("a", 60, Dispatched), 60, []), Roads(), Config(0, false, {}))
  {
    OutingPassesOtherwise(1440 + 550, 1440 + 620, 60, 60, []);
  }

  /** The first job is reported done after seventy-five minutes of an hour's visit: the route passed until then, and
      no plan for the rest of the day can be added to what was driven and pass. */
  lemma RunningOverSpoilsTheDay(baseline: Plan, planned: Plan, repaired: Plan)
    requires baseline.routes == [BROKEN_OFF]
    requires repaired.routes == Carried(baseline.routes, LOCKED) + planned.routes
    ensures RouteOk(BROKEN_OFF, Monday(Pane("a", 60, Dispatched), 60, []), Roads(), Config(0, false, {}))
    ensures !PlanOk(repaired, Monday(Pane("a", 75, Completed), 60, []), Roads(), Config(0, false, {}))
  {
    var now := Monday(Pane("a", 75, Completed), 60, []);
    FirstStopDone(1440 + 550, 1440 + 620);
    PassedUntilThen();
    var part := DrivenPart(BROKEN_OFF, 0);
    assert part.stops[0].jobId == "a" && part.stops[0].departure - part.stops[0].arrival == 60;
    assert !SlotsLast(part, now);
    OverrunsFailEveryRepair(now, Roads(), Config(0, false, {}), baseline, LOCKED, 0, planned, repaired);
  }

  // ------------------------------------------------------ a delay recorded afterwards

  /** Every drive from eight o'clock on takes twice as long, as is learned once the first one has been made. */
  const JAM := TrafficOverride(None, None, 2.0, 1440 + 480, None)

  const LEARNED := E.Event("e", 1440 + 560, 1440 + 560, E.TrafficDelay(JAM))

  /** Monday at nine, with the delay recorded. */
  function Jammed(): World { Monday(Pane("a", 60, Dispatched), 60, []).(trafficOverrides := [JAM]) }

  lemma TheJamIsRecorded()
    ensures E.Replay(Monday(Pane("a", 60, Dispatched), 60, []), [LEARNED]) == Jammed()
  {
    assert [LEARNED][..0] == [];
    assert E.Replay(Monday(Pane("a", 60, Dispatched), 60, []), []) == Monday(Pane("a", 60, Dispatched), 60, []);
  }

  lemma TheJamIsRead(cells: Cells)
    ensures RoadsIn(Jammed(), Roads(), cells)(HERE, HERE, 1440 + 480).minutes == 20
  {
    assert [JAM][..0] == [];
    assert InForce(JAM, cells(HERE), cells(HERE), 1440 + 480);
    assert Multiplier([JAM], cells(HERE), cells(HERE), 1440 + 480) == 2.0;
    assert Scaled(10, 2.0) == 20;
  }

  lemma TheRoadNoLongerFits(cells: Cells)
    ensures var part := DrivenPart(BROKEN_OFF, 0);
            ReferencesOk(part, Jammed()) && !RoadsHold(part, Jammed(), RoadsIn(Jammed(), Roads(), cells), 0)
  {
    FirstStopDone(1440 + 550, 1440 + 620);
    TheJamIsRead(cells);
    var part := DrivenPart(BROKEN_OFF, 0);
    assert SetOutAt(part, 0) == 1440 + 480;
    assert !RoadFits(part, 0, Jammed(), RoadsIn(Jammed(), Roads(), cells), 0);
  }

  lemma AllElseIsInOrder()
    ensures DrivenInOrder(BROKEN_OFF, LOCKED, Jammed(), Config(0, false, {}))
  {
    FirstStopDone(1440 + 550, 1440 + 620);
    assert HoursFor(FITTER, Weekday(1)) == Some(RawHours(0, 480, 1020));
  }

  /** The delay changes no record and nothing about the driven stop but the road to it, which the checker asks again:
      the route passed until then, and no plan for the rest of the day can be added to what was driven and pass. */
  lemma DelaysReachTheDriven(cells: Cells, baseline: Plan, planned: Plan, repaired: Plan)
    requires baseline.routes == [BROKEN_OFF]
    requires repaired.routes == Carried(baseline.routes, LOCKED) + planned.routes
    ensures var was := Monday(Pane("a", 60, Dispatched), 60, []);
            var now := E.Replay(was, [LEARNED]);
            && RouteOk(BROKEN_OFF, was, RoadsIn(was, Roads(), cells), Config(0, false, {}))
            && Kept(BROKEN_OFF, was, now) && DrivenInOrder(BROKEN_OFF, LOCKED, now, Config(0, false, {}))
            && !PlanOk(repaired, now, RoadsIn(now, Roads(), cells), Config(0, false, {}))
  {
    PassedUntilThen();
    TheJamIsRecorded();
    AllElseIsInOrder();
    JammedIsRefused(cells, baseline, planned, repaired);
  }

  lemma JammedIsRefused(cells: Cells, baseline: Plan, planned: Plan, repaired: Plan)
    requires baseline.routes == [BROKEN_OFF]
    requires repaired.routes == Carried(baseline.routes, LOCKED) + planned.routes
    ensures !PlanOk(repaired, Jammed(), RoadsIn(Jammed(), Roads(), cells), Config(0, false, {}))
  {
    FirstStopDone(1440 + 550, 1440 + 620);
    TheRoadNoLongerFits(cells);
    OverrunsFailEveryRepair(Jammed(), RoadsIn(Jammed(), Roads(), cells), Config(0, false, {}), baseline, LOCKED, 0,
                            planned, repaired);
  }

  // --------------------------------------------------------- home after midnight

  /** The first job done ten minutes short of eleven at night, home past midnight. */
  const NIGHT := Outing(1440 + 1370, 2880)

  /** A sound route that ends after midnight whose driven part, cut off before midnight, is not sound. */
  lemma AfterMidnightReadsAsEarly()
    ensures var world := Monday(Pane("a", 880, Dispatched), 60, []);
            && RouteOk(NIGHT, world, Roads(), Config(0, false, {}))
            && LastLocked(NIGHT.stops, LOCKED) == Some(0) && IsLocked(world, "a")
            && !RouteOk(DrivenPart(NIGHT, 0), world, Roads(), Config(0, false, {}))
  {
    var world := Monday(Pane("a", 880, Dispatched), 60, []);
    FirstStopDone(1440 + 1370, 2880);
    OutingPassesOtherwise(1440 + 1370, 2880, 880, 60, []);
    DrivenPartPassesNow(NIGHT, 0, world, Roads(), Config(0, false, {}));
    assert HoursFor(FITTER, Weekday(1)) == Some(RawHours(0, 480, 1020));
    assert !MemberMayEndAt(FITTER, 1440 + 480, 1440 + 1370, Config(0, false, {}));
    assert NIGHT.workerIds[0] == "w";
  }
}
