# Krama dispatch engine: model and proofs

Krama plans crews, vans and glass-fitting jobs over several days. It plans with one implementation (a
constraint model whose answer is replayed against a travel oracle), checks with another (independently
written loops over the finished plan), commits the result through compare-and-swap on a HEAD object, and
repairs the plan when something goes wrong. This project models that chain in Dafny and proves, for every
input, run or interleaving, what the chain is for: planner and checker agree, nothing stored is lost or
overwritten, no job is lost or doubled, work under way stays put. Where the code falls short of its promise there
is an input that shows it and the exact condition under which it does not.

`dafny verify dfyconfig.toml` verifies everything.

## How it is laid out

| file | what it holds |
|---|---|
| `Collections.dfy`, `Domain.dfy` | options, a stable sort, string order; jobs, crews, vans, plans, the world |
| `Routing.dfy`, `Traffic.dfy` | the departure search and the replay of a job sequence; recorded delays laid over the roads |
| `FreeInterval.dfy` | the longest stretch of a shift that no outage meets |
| `Invariants.dfy`, `Checker.dfy` | what a valid plan is, without loops; the checking loops, proved to report nothing exactly then |
| `DayPlanner.dfy`, `PlanDay.dfy`, `Pruning.dfy`, `Objective.dfy` | the constraints handed to the solver, extraction, the loops around them, arc pruning, the scaled objective |
| `Agreement.dfy`, `Buckets.dfy`, `Witness.dfy` | planner and checker agree; roads that change with the traffic bucket; a day on which every hypothesis holds, and days on which one fails |
| `DayAssignment.dfy`, `Horizon.dfy`, `HorizonAgreement.dfy` | day assignment, the two-stage feedback loop, and the horizon as one plan |
| `EventFold.dfy`, `FoldLaws.dfy`, `LogLaws.dfy` | the event log folded into the world, and what a whole log makes of each record |
| `PlanVersions.dfy`, `CommitProtocol.dfy`, `FileProtocol.dfy`, `AppendProtocol.dfy` | stored versions and ancestry; commits to the bucket, commits to files, and appends, by any number of concurrent writers |
| `Diff.dfy`, `Repair.dfy`, `RepairSoundness.dfy`, `RepairWitness.dfy`, `Reroute.dfy` | plan diffs and the autonomy policy; carving out work in flight; what a repaired plan is worth, and days that show it; absorbing an outage unasked |
| `Solve.dfy` | solving and checking in one go, as the command line does |
| `Calendar.dfy` | the column layout of a day |

Time is whole minutes on one axis and money is whole cents. The solver is any assignment that satisfies the
constraints (`DayPlanner.Feasible`, `DayAssignment.ChoiceOk`); the travel oracle is any function of two places
and a moment; dictionaries that a method changes are maps it reassigns.

## The edges between planner and checker

Most of what the checker asks can never fail: the routes of any feasible answer to a posed problem name what
exists, repeat no job, double-book nobody, carry fit crews, loads that fit and parts that exist, and pass every leg
after the first, whatever the roads (`Agreement.PlanPassesIff`). What is left reads the clock: outages, windows,
hours and the first leg. There the two programs differ at their edges, which `Agreement.Edges` states as hypotheses.
Where a property fails for some input there is a lemma with that input, and one that says exactly when it holds:

- Overtime is added after a shift was trimmed by an outage (`day_planner.py:774-783`), and an extension counts
  for a worker who is not eligible for overtime (`invariants.py:517-519`). An outage of no length is invisible to the
  planner and rejected by the checker (`EmptyOutageSplitsTheViews`), and an open-ended one ends at midnight for the
  planner (`OpenOutageEndsAtMidnight`). `OutingClear` asks of each route what this leaves open: no outage between
  setting out and coming home that the planner missed, and everyone aboard home by the end of the usable stretch, or
  allowed out so late and clear of outages after it. It is exact for a route on time (`OutingClearIff`), and a crew
  home within the stretch meets it where outages end after they begin (`Witness.TheTrimmedDayAgrees`, overtime
  allowed). When no outing the planner may yet allow can fail is exact too (`EnvelopeAcceptedIff`, `TrimmedByOutage`).
  The two views of outages agree exactly when every outage is harmless (`ViewsAgreeIff`); within a day, outages that
  end after they begin are.
- The first leg may carry the travel time of a departure other than the one it implies (`routing.py:79-80`):
  `FirstLegSuits`. `Routing.FirstLegWillPass` decides it from the roads and the windows before the search, exactly
  (`FirstLegAcceptedIff`, and `LegsAccepted` for the route); `FirstLegCanBeRejected` is a rejected route.
- A departure search that runs out of rounds can arrive late (`UnsettledRoadsCanBeLate`): `Timely`. A drive is on
  time exactly when the search does not run out or its last resort is quick enough, which the roads and windows
  tell (`DriveIsOnTime`), and so is a whole replay (`ReplayOnTimeIff`). Only a job with several windows of which some
  bind must be reached when service can first begin (`Punctual`, decided by `DriveIsPunctual`), which suffices.
- A confirmed job with several soft windows can be replayed outside them all (`TwoSoftWindowsCanBreakAPromise`):
  `PromisesHold`, of promises the checker was not told are released. The windows alone decide, exactly
  (`PromiseHoldsIff`); one window, or hard ones, always hold. Folding a confirmation leaves one window, so this needs
  data from elsewhere.
- Request time is checked, for jobs with windows only, and never planned for (`invariants.py:460`): `RequestsSuit`,
  of each job from when its crew gets to the door, which is no sooner than the work before it allows
  (`WorkBeforeSuffices`). Work asked for during the day can be replayed before it was (`RequestsCanComeLate`); no
  replay in time is, exactly when no window the crew could use opens before the request (`AskedInTimeIff`).
- A released promise needs no window (`day_planner.py:989-991`), which the checker still asks for when it is hard
  (`Witness.GivingUpIsNotEnough`): `ReleasedSuit`. A released start is one every replay in time keeps to what the
  checker asks, and by, exactly when it suits the windows as the checker reads them, told which promises were released
  or not (`ReleasedStartSuitsIff`): a soft window then only has to open first, and a day that passes once the checker
  is told, and not before, is `Witness.ToldOfTheRelease`.
- A crew may meet a drive slower than the matrix says (`day_planner.py:696-713`): `Pessimistic`, of the drives on
  its tour, begun by when it is done at the stop before and ending within its hours. On steady roads it can only be a drive to or from its own depot, since the matrix
  measures from the first van's: `Witness.FarDepotsAreMisjudged`, and exactly `SteadyDepotIff`. On roads that depend
  on the traffic bucket, drives begun in a sampled bucket are bounded and no others (`Buckets.NeverSlowerIff`). Every
  bucket between the earliest start and the latest end with overtime is sampled (`PlanDay.PoseProblem`), but an
  hour agreed for one day is not counted, so a crew kept late can drive in a bucket nobody sampled, against what
  the comment on the probes says (`Witness.AgreedHoursAreNotSampled`); a crew home by the latest sampled hour never
  does (`Buckets.BucketedTravelSuffices`). Traffic incidents between two probes are not sampled either.

Other places where a property of the code has a boundary, each with its exact condition:

- A carried route can fail in a repaired plan, and nothing else of it can (`RepairSoundness.RepairIsSound`). Of a
  plan that was valid before the day moved on, by the roads and settings of then, the repair is valid by those of now
  exactly when every driven stop was given as long as its job is now said to take, every road driven, asked again,
  still fits, no promise released before is asked for again and broken, nobody aboard was out while it was driven, and
  everyone may end where it ends (`RepairSoundness.RepairOfASoundPlan`). What the rest of the route runs into does not
  matter (`RepairWitness.MidRouteOutageIsAbsorbed`). A job that ran over its slot spoils every repair of the day
  (`RepairWitness.RunningOverSpoilsTheDay`), and so does a traffic delay recorded after the drive it slows, because
  the roads are read from the world as it is now (`RepairWitness.DelaysReachTheDriven`); events that change no crew,
  van, depot or promise of what was driven and delay none of its drives leave only overruns, outages and the hour
  (`RepairSoundness.RepairAfterTheDay`). A route ending after midnight passes the hours check on its clock alone, so
  its driven part, cut off before midnight, can fail (`RepairWitness.AfterMidnightReadsAsEarly`).
- A window is used by the day planner only if it begins no more than a day before the day and ends no more than a day
  after it, since the clock it is read on reaches no further (`day_planner.py:248-253`); whether it touches the day is
  asked without that limit (`day_planner.py:312-322`). A job that may be done on any of five days is a candidate for
  each and served on none (`Witness.AnyTimeIsNeverServed`). When a window can be chosen is exact
  (`DayPlanner.SelectorIff`).
- A broken promise is not always reported, against what the comment on the result says: a day without an answer
  lists none (`Witness.NobodyIsTold`). It is listed exactly when the solver was asked and answered and the job's
  parts and windows allowed the day (`PlanDay.BrokenPromisesAreReportedIff`), and comes out of the horizon exactly
  when some day of the last round did that (`Horizon.BrokenPromisesOfTheHorizonIff`); a promise that day assignment
  drops never does (`Horizon.DroppedPromisesAreSilent`).
- A retry of content already stored commits the version on file, whose parent is the one it first had, so the
  version that won the race drops out of the ancestry (`CommitProtocol.RetryDropsTheWinner`). The ancestry is the
  whole history exactly when each of its versions is what is on file under its id and none repeats another
  (`CommitProtocol.AncestryIsTheHistoryIff`).
- Two different events that share an id and a moment expose the order of the log (`FoldLaws.SharedIdsExposeOrder`).
  The order is hidden exactly when no two events known at the moment do (`FoldLaws.OrderHiddenIff`).
- A candidate is reported twice exactly when it is listed twice and has no day or was given none
  (`DayAssignment.ReportedTwiceIff`).
- A stop of no length can cost a calendar column (`Calendar.AnInstantCanCostAColumn`). A cluster has exactly as many
  columns as some stop needs when it starts: itself and those before it that have not ended.
- The file store can lose a commit to a race, which its own comments allow (`FileProtocol.FilesCanLoseACommit`).
  With fresh ids exactly those interleavings lose one in which HEAD is replaced between a successful writer's check
  and its own move (`FileProtocol.NothingIsLostIff`). HEAD stays on file under its own id whatever ids are used
  (`FileProtocol.EveryRunIsOk`), but under a reused id only the last version written is on file, so one writer alone
  can drop a part of the history (`FileProtocol.ReusedIdsDropHistory`).

## Model

| member | source | states |
|---|---|---|
| Routing.ComputeEarliestStart | src/krama/scheduler/routing.py:33-48 | The loop returns the least start over all windows that fit the visit |
| Routing.EarliestStartIsLeast | src/krama/scheduler/routing.py:33-48 | No suitable start after arrival is earlier than the one chosen |
| Routing.ChooseDeparture | src/krama/scheduler/routing.py:51-88 | The bounded search computes the drive the specification gives, with how it ended |
| Routing.DriveIsHonest | src/krama/scheduler/routing.py:51-88 | For any oracle a drive arrives no sooner than leaving at once allows, implies no departure before the crew is ready, arrives when service can first begin unless the search ran out, and if settled carries the travel time of the departure it implies |
| Routing.DriveTakesARoad | src/krama/scheduler/routing.py:61-88 | The minutes and miles of a drive are those of one road, asked for no sooner than the crew is ready: at the moment it is ready, at the departure the arrival implies, or at the last one tried |
| Routing.SteadyRoadsSettle | src/krama/scheduler/routing.py:69-88 | With travel that ignores the hour every search settles |
| Routing.EndingIff | src/krama/scheduler/routing.py:61-88 | Which way the search ends, and the leg and arrival it ends with, read off the roads at the departures it tries |
| Routing.FirstLegAcceptedIff | src/krama/domain/invariants.py:361-386 | The first leg is accepted if and only if there is nothing to wait for, or a departure tried reproduces itself, or the fallback to leaving at once or the last resort of a search that ran out is priced no lower, beyond the slack, than the road it implies; all told from the roads and windows |
| Routing.FirstLegCanBeRejected | src/krama/scheduler/routing.py:79-80 | A concrete oracle and job whose first leg the checker rejects |
| Routing.MaterializeRoute | src/krama/scheduler/routing.py:91-137 | The replay loop builds the specified walk under the names given. Every stop lasts its job's full duration and carries the minutes and miles of the road its drive took; the way home carries those of the road from the last job's door to the van's depot at the last departure, at whose end the span of the route ends |
| Routing.WalkStepwise | src/krama/scheduler/routing.py:108-127 | Every stop is the drive from the stop before it, departing when that stop is done |
| Routing.ReplayRecords | src/krama/scheduler/routing.py:91-137 | The same of every replay: each leg, and the way home, minutes and miles, and where its span ends |
| Routing.WalkIsConsistent | src/krama/scheduler/routing.py:108-127 | For any oracle: every stop lasts its full duration, begins no sooner than the previous end plus the drive priced there, and implies no departure before the crew was free |
| Routing.DriveIsOnTime | src/krama/scheduler/routing.py:51-88 | A crew ready in time, with room for the road, starts by the planned start if and only if the search does not run out or the road at its last departure still gets there |
| Routing.DriveIsPunctual | src/krama/scheduler/routing.py:51-88 | A drive arrives when service can first begin if and only if the same holds of that moment |
| Routing.NeverLaterThanPlanned | src/krama/scheduler/routing.py:91-137 | If the starts leave room for every leg at any moment a crew on time may set out on it, a stop is reached by its planned start when no search up to it runs out too late |
| Routing.ReplayOnTimeIff | src/krama/scheduler/routing.py:91-137 | With that room every replayed arrival is by its planned start if and only if no search runs out too late |
| Routing.UnsettledRoadsCanBeLate | src/krama/scheduler/routing.py:69-88 | An oracle on which the search runs out of rounds and arrives after the plan |
| FreeInterval.BlockedStretches | src/krama/scheduler/day_planner.py:338-348 | The clipped stretches block exactly the minutes of the span that some outage blocks |
| FreeInterval.AbsorbIsUnion | src/krama/scheduler/day_planner.py:354-359 | Absorbing a stretch into the merged list is set union of minutes |
| FreeInterval.Merge | src/krama/scheduler/day_planner.py:353-359 | Merging keeps the blocked minutes and leaves separated stretches in order |
| FreeInterval.Sweep | src/krama/scheduler/day_planner.py:361-367 | The sweep finds the earliest of the longest gaps |
| FreeInterval.LargestFreeInterval | src/krama/scheduler/day_planner.py:325-367 | The result lies in the span, meets no outage, is at least as long as every free stretch, and is none only when there is none |
| FreeInterval.LargestFreeIsUnique | src/krama/scheduler/day_planner.py:325-367 | The specification has one answer |
| FreeInterval.NothingMeansAllBlocked | src/krama/scheduler/day_planner.py:325-367 | No result if and only if every minute of the span is blocked |
| FreeInterval.ViewsAgreeIff | src/krama/domain/state.py:162-170 | For any outages and span, past midnight included, the planner and the availability query agree on every stretch if and only if each outage is harmless: it ends after it begins, lies outside the span, or is covered by others where only one view sees it |
| FreeInterval.FreeIsAvailable | src/krama/domain/state.py:162-170 | Within the day outages that end after they begin, or not at all, are harmless, so a stretch is free if and only if the query accepts it |
| FreeInterval.OneOutageAgreesIff | src/krama/domain/state.py:162-170 | One outage is seen alike over the day if and only if it ends after it begins or lies before or after the day |
| FreeInterval.EmptyOutageSplitsTheViews | src/krama/scheduler/day_planner.py:346-348 | An outage of no length that the planner cannot see and the query reports |
| FreeInterval.OpenOutageEndsAtMidnight | src/krama/scheduler/day_planner.py:341-345 | Past midnight an open-ended outage is over for the planner and not for the query |
| Checker.CheckReferences | src/krama/domain/invariants.py:162-197 | Reports nothing exactly when every worker, van and job named exists |
| Checker.CheckDuplicateAssignments | src/krama/domain/invariants.py:200-220 | Reports nothing exactly when no job has two stops, and only repeated jobs |
| Checker.CheckCrewFitness | src/krama/domain/invariants.py:223-266 | Reports nothing exactly when every crew is certified and large enough, and only genuine shortfalls |
| Checker.CheckResourceExclusivity | src/krama/domain/invariants.py:269-311 | The pairwise loop over recorded spans reports nothing exactly when nobody and no van is in two places |
| Checker.CheckResourceAvailability | src/krama/domain/invariants.py:314-343 | Reports nothing exactly when no outage meets a route's span |
| Checker.CheckTravelConsistency | src/krama/domain/invariants.py:346-414 | Reports nothing exactly when every leg of the known stops passes recomputation within the slack |
| Checker.MatchingWindow | src/krama/domain/invariants.py:133-159 | Finds a window exactly when one satisfies the stop |
| Checker.CheckWindows | src/krama/domain/invariants.py:417-473 | Reports nothing exactly when every stop satisfies one of its windows and comes after its request |
| Checker.CheckWorkingHours | src/krama/domain/invariants.py:476-537 | Reports nothing exactly when every member is within hours, or allowed past the end |
| Checker.CheckVanCapacity | src/krama/domain/invariants.py:540-585 | The tallies are the true loads; reports nothing exactly when rack and stock suffice |
| Invariants.PanesFillSlots | src/krama/domain/invariants.py:548-561 | The pane tally of a route is the number of rack slots its jobs fill, told apart stop by stop |
| Invariants.LoadIsPieces | src/krama/domain/invariants.py:549-559 | The tally of a part is the number of pieces of it that the jobs of a route take from stock |
| Invariants.KnownStopsAre | src/krama/domain/invariants.py:365-372 | The stops whose legs are checked are those of known jobs, in order |
| Invariants.HoursOnOneDay | src/krama/domain/invariants.py:484-519 | A route that keeps to one day is within a member's hours if and only if it begins no sooner than the shift of that weekday and ends by its end, or later if overtime is allowed and the member eligible |
| Domain.MaterialDayIff | src/krama/domain/models.py:261-264 | The day a job can first be done is at most a given day if and only if it was asked for by then and each of its parts is in stock or has had its lead time |
| Checker.CheckMaterials | src/krama/domain/invariants.py:588-614 | Reports nothing exactly when each part of every routed job is in stock or, ordered on the day of the request, has arrived by the route's day |
| Checker.ValidatePlan | src/krama/domain/invariants.py:617-635 | The whole checker reports nothing if and only if the plan is valid |
| Checker.ValidateAgainstBaseline | src/krama/domain/invariants.py:638-687 | Reports nothing if and only if every dispatched or completed job kept its arrival and crew |
| Invariants.StopForIsFirst | src/krama/domain/models.py:391-396 | The stop a plan has for a job is the first in the order of routes and stops |
| DayPlanner.SequenceFacts | src/krama/scheduler/day_planner.py:1155-1158 | Sorting by start gives each visited job once, in start order |
| DayPlanner.OrderIsTheCircuits | src/krama/scheduler/day_planner.py:900-935 | Each position of the sorted sequence is entered by a chosen arc from the one before it |
| DayPlanner.SequenceIsTheTour | src/krama/scheduler/day_planner.py:900-935 | Sorting by start recovers the circuit: depot to first, arc to arc, last to depot |
| DayPlanner.SingleCycleIsImplied | src/krama/scheduler/day_planner.py:903-935 | Degrees and start times already rule out sub-tours, so the circuit's connectivity is implied |
| DayPlanner.SelectorIff | src/krama/scheduler/day_planner.py:248-253 | A window may be chosen for a start if and only if it begins no more than a day before the day and ends no more than a day after it, touches it, has opened by the start and, if binding, closes no sooner than the job is done |
| DayPlanner.ChoosableIff | src/krama/scheduler/day_planner.py:951-978 | A window has room for the job at some start of the day if and only if it has from when it opens or the day begins |
| DayPlanner.ServedInReach | src/krama/scheduler/day_planner.py:951-993 | A job served without giving up its promise is served in a window like that |
| PlanDay.ProbeTimes | src/krama/scheduler/day_planner.py:397-421 | Exactly the traffic buckets the shift touches are sampled, each at its own hour, or the forced hour alone, or the start of a shift that touches none |
| DayPlanner.WorstLegIsASample | src/krama/scheduler/day_planner.py:700-713 | The slowest sample is one of the samples and none is slower |
| PlanDay.BuildMatrix | src/krama/scheduler/day_planner.py:700-713 | Every off-diagonal entry is the slowest of the samples |
| PlanDay.RosteredWorkers | src/krama/scheduler/day_planner.py:658-670 | Exactly the workers with a usable stretch, by id, each with a longest one |
| PlanDay.UsableVans | src/krama/scheduler/day_planner.py:672-681 | Exactly the vans with a usable stretch, by id |
| PlanDay.Triage | src/krama/scheduler/day_planner.py:622-652 | Splits known active candidates into those modelled and those reported at once: a part that has not arrived by the day, or no window that touches it |
| DayPlanner.TouchingIsSharing | src/krama/scheduler/day_planner.py:312-322 | Windows that end after they begin touch a day exactly when some moment of the day lies in one |
| PlanDay.PoseProblem | src/krama/scheduler/day_planner.py:622-713 | The loops build the problem the constraints are stated over, with every traffic bucket between the earliest start and the latest end, overtime included, sampled in its matrix |
| PlanDay.ReadCrew | src/krama/scheduler/day_planner.py:1151-1174 | A crew's answer is read back as its replayed route, or nothing when it stays in |
| DayPlanner.CrewIdsInOrder | src/krama/scheduler/day_planner.py:1151-1174 | A crew of a roster sorted by id is listed by id |
| PlanDay.ReadRoutes | src/krama/scheduler/day_planner.py:1149-1174 | The routes are those of the emitted crews, and exactly their jobs are marked scheduled |
| PlanDay.DayRoutesJobs | src/krama/scheduler/day_planner.py:1149-1174 | The routes of any answer route only posed jobs, each once |
| PlanDay.VisitedIsRouted | src/krama/scheduler/day_planner.py:1151-1174 | A job some crew visits appears in the emitted routes |
| PlanDay.LockedIsRouted | src/krama/scheduler/day_planner.py:793-795 | A locked job is in a route whatever the solver returns |
| PlanDay.PinsAreHonoured | src/krama/scheduler/day_planner.py:839-864 | Whoever claimed a job's overtime or was pinned to it, and is at work that day, is on every emitted route that serves it |
| PlanDay.PinsAre | src/krama/scheduler/day_planner.py:839-864 | A worker is pinned to a job if and only if at work that day and named by the job's pins or the claimant of its overtime offer for that very day |
| PlanDay.BrokenPromisesAreReportedIff | src/krama/scheduler/day_planner.py:1181-1185 | A confirmed candidate that no route serves is in the released list if and only if there was work, a crew and a van, the solver answered, and the job's parts and windows allowed the day |
| PlanDay.ReleasedInTurn | src/krama/scheduler/day_planner.py:1181-1185 | The released promises are listed as the jobs are |
| Witness.NobodyIsTold | src/krama/scheduler/day_planner.py:228-230 | A day whose solver finds nothing leaves its promised job unserved and lists no broken promise |
| PlanDay.PlanDay | src/krama/scheduler/day_planner.py:602-1190 | The day poses the stated problem, returns the routes of the answer and the confirmed jobs it released in job order, reports broken promises exactly then, and accounts for each distinct candidate exactly once |
| Pruning.PrunableArcs | src/krama/scheduler/day_planner.py:370-394 | An arc is kept exactly when pruning is off, it touches the depot, or one end is among the other's k nearest by rank |
| Pruning.PlaceIsRank | src/krama/scheduler/day_planner.py:388-390 | A neighbour's place after sorting is the number of neighbours that are closer |
| Pruning.KeptBothWays | src/krama/scheduler/day_planner.py:386-394 | Kept arcs are symmetric and every depot arc stays |
| Pruning.EnoughNeighboursPruneNothing | src/krama/scheduler/day_planner.py:388-393 | With k at least the number of other stops nothing is pruned |
| Pruning.NobodyIsStranded | src/krama/scheduler/day_planner.py:386-394 | Every stop keeps, in both directions, an arc to a nearest other stop |
| Objective.DigitsDecide | src/krama/scheduler/day_planner.py:1080-1115 | One digit of the mixed-radix objective outweighs everything below it |
| Objective.TermsBounded | src/krama/scheduler/day_planner.py:1080-1115 | Each tie-break term stays within the ceiling it is scaled by |
| Objective.DeployedCountsSeats | src/krama/scheduler/day_planner.py:1094 | The first tie-break is the number of pairs of a worker and a crew the worker rides with |
| Objective.LaterStartCostsMore | src/krama/scheduler/day_planner.py:1099 | Of two answers that differ in one start the second tie-break differs by as many minutes |
| Objective.EarlierSeatWins | src/krama/scheduler/day_planner.py:1104-1108 | Of two answers that differ in who takes one seat the third prefers the earlier worker, then the earlier van |
| Objective.ScaledIsLexicographic | src/krama/scheduler/day_planner.py:1080-1115 | For any two feasible answers the scaled objective compares exactly like (cost, people, starts, worker order) |
| Agreement.SteadyTravelSuffices | src/krama/scheduler/day_planner.py:700-713 | With travel that ignores the hour and one depot no crew meets a drive slower than the matrix, every drive is timely and punctual and every first leg accepted |
| Agreement.SteadyDepotIff | src/krama/scheduler/day_planner.py:702-713 | With travel that ignores the hour no drive of a crew's tour is slower than the matrix if and only if none of its drives out of and back to its own depot is, where it has the time the matrix charges |
| Witness.FarDepotsAreMisjudged | src/krama/scheduler/day_planner.py:702 | A day with a second depot whose feasible answer is refused by the checker, whatever it allows |
| Buckets.NeverSlowerIff | src/krama/scheduler/travel/base.py:46-64 | On all roads that depend on the departure through its traffic bucket alone, a drive begun at a moment takes no longer than the slowest sample if and only if some sample was taken in that bucket |
| Buckets.ProbedHoursAreSampled | src/krama/scheduler/day_planner.py:397-421 | Every moment of the day between the earliest start and the latest end with overtime lies in a sampled bucket |
| Buckets.BucketedTravelSuffices | src/krama/scheduler/day_planner.py:696-713 | On such roads a crew from the first depot that is home by the latest sampled hour never meets a drive slower than the matrix |
| Witness.AgreedHoursAreNotSampled | src/krama/scheduler/day_planner.py:696-700 | A fitter agreed to stay late drives in a bucket no sample was taken in, and the feasible answer is refused |
| Agreement.ReplayOnSchedule | src/krama/scheduler/routing.py:91-137 | Pessimism is safe: with no search that runs out too late every arrival is by the solver's start and the crew is home by its end, however the first leg was priced |
| Agreement.LegsAccepted | src/krama/domain/invariants.py:346-414 | A replayed route passes the recomputation of every leg, for any oracle, if and only if its first leg is one that passes |
| Agreement.AskedInTimeIff | src/krama/domain/invariants.py:460-473 | No replay in time by a crew at the door from some moment on comes before the job's request, if and only if no window it could use then opens before the request, or no start from then on suits, as the checker told of the released promises reads the windows |
| Agreement.WorkBeforeSuffices | src/krama/domain/invariants.py:460-473 | A job asked for in time for a crew that had only to do the jobs before it is asked for in time for the crew that also has to drive |
| Agreement.RequestsCanComeLate | src/krama/domain/invariants.py:460-473 | A job asked for at noon that a crew out in the morning replays before noon |
| Agreement.ReleasedStartSuitsIff | src/krama/domain/invariants.py:105-159 | For any set of promises the checker was told are released and a job whose windows hold it under them: every replay in time for a start satisfies the checker and waits no longer than the start, if and only if the start suits some window, wholly where one still binds and else only by coming after it opens |
| Witness.GivingUpIsNotEnough | src/krama/scheduler/day_planner.py:989-991 | A promise given up and begun outside its hard window, whose feasible answer the checker refuses |
| Witness.AnyTimeIsNeverServed | src/krama/scheduler/day_planner.py:248-253 | A job that may be done on any of five days is a candidate for each of them, and no feasible answer for any day serves it without giving up its promise |
| Agreement.PromiseHoldsIff | src/krama/scheduler/routing.py:33-48 | A job is replayed so as to suit its windows, whenever the crew is ready in time for a start that does, if and only if it is no promise, or one the checker was told is released, or no soft window is open outside all windows while a long enough one has not closed |
| Agreement.PickedWindowSatisfies | src/krama/domain/invariants.py:417-473 | The window the replay waits for satisfies the checker told of the released promises, for a job under exactly that condition and a start that suits |
| Agreement.TwoSoftWindowsCanBreakAPromise | src/krama/scheduler/routing.py:33-48 | A confirmed job with two soft windows that the planner fits and the replay breaks |
| Agreement.EnvelopeAcceptedIff | src/krama/scheduler/day_planner.py:774-783 | The worst case: every stretch the planner may keep a member out, cut at midnight, passes the availability and hours checks if and only if no minutes are added past the trimmed stretch, or they are clear of outages and overtime is allowed and the member eligible or only the last minute of the day is added |
| Agreement.MemberAcceptedIff | src/krama/domain/invariants.py:314-343 | One outing of one member passes the availability and hours checks if and only if the planner missed no outage in it, and it ends within the usable stretch or meets no outage after it and ends by the rostered hour, by overtime, or at midnight |
| Agreement.OutingClearIff | src/krama/domain/invariants.py:476-537 | A crew's route that runs on time passes the availability and hours checks if and only if that holds of everyone aboard over the time it is really out, and the planner missed no outage of the van |
| Agreement.TrimmedByOutage | src/krama/scheduler/day_planner.py:774-783 | A stretch that stops short of the shift stops at an outage, which any later end meets |
| Agreement.CapacityHolds | src/krama/scheduler/day_planner.py:880-893 | The pane and part sums of the model are the loads the checker tallies, so the van limits hold for any route of the crew's jobs, on time or not |
| Agreement.PlanPassesIff | src/krama/domain/invariants.py:617-635 | With no condition on roads, hours, requests or promises, the plan of any feasible answer is valid if and only if each emitted crew's route passes availability, windows and hours and its first leg suits; so references, duplicates, fitness, exclusivity, capacity, materials and later legs never fail |
| Agreement.PlannerAndCheckerAgree | src/krama/domain/invariants.py:617-635 | Routes made from any assignment that satisfies the planner's constraints violate no invariant, given the edges of the crews that go out |
| Agreement.SteadyDayAgrees | src/krama/scheduler/day_planner.py:760-993 | The same from plain conditions, overtime allowed: steady travel, one depot, earlier requests, crews home within everyone's usable stretch, one window per promise the checker was not told is released, and released starts that suit what is left of their windows |
| Agreement.PlainDayAgrees | src/krama/scheduler/day_planner.py:760-993 | The corollary without overtime and with nothing released |
| Witness.TheDayAgrees | src/krama/scheduler/day_planner.py:602-993 | A concrete day meets every hypothesis and its promised job is served |
| Witness.TheTrimmedDayAgrees | src/krama/scheduler/day_planner.py:654-670 | A day with overtime allowed and an eligible fitter out from one o'clock passes, though the planner might have kept the fitter past it |
| Witness.ToldOfTheRelease | src/krama/domain/invariants.py:105-130 | A released promise of a soft window passes the checker that was told of it, and no other |
| DayAssignment.StagesAgreeOnReach | src/krama/scheduler/day_planner.py:434-451 | The hour day assignment counts on is the rostered end or a later agreed hour, within what the day planner allows, and the very same where no overtime is allowed |
| DayAssignment.DayCapacity | src/krama/scheduler/horizon.py:138-170 | The day's total, and that of each certification, is the number of pairs of a worker and one of the minutes of that worker's share of the longest free stretch; the workers counted are those with a share; no certification has more than the day |
| DayAssignment.SharesAreMinutes | src/krama/scheduler/horizon.py:150-166 | The sum of the shares, overall and per certification, counts those pairs |
| DayAssignment.PlannableIsMost | src/krama/scheduler/horizon.py:158-159 | A share is the most whole minutes in the used part of the free stretch |
| DayAssignment.CertifiedWithinTotal | src/krama/scheduler/horizon.py:159-166 | No certification has more crew-minutes than the day |
| DayAssignment.FitsBothIff | src/krama/scheduler/horizon.py:238-250 | So much work fits a day of a later round, overall or of one certification, if and only if it fits what the day has of it and what was learned of the day |
| DayAssignment.IsStaffed | src/krama/scheduler/horizon.py:194-211 | A day is staffed exactly when enough workers who can work that day hold every certification |
| DayAssignment.FeasibleDays | src/krama/scheduler/horizon.py:173-191 | The days offered are exactly those by which every part has arrived, with a touching window and staff, in order |
| DayAssignment.AllowedMeansCandidate | src/krama/scheduler/horizon.py:173-191 | Stage A never offers a day on which the day planner would turn the job away |
| DayAssignment.AssignDays | src/krama/scheduler/horizon.py:217-361 | The loops return the days the answer gives, one per id, and every other job as often as it is listed, for any answer or none |
| DayAssignment.EachJobOnce | src/krama/scheduler/horizon.py:343-361 | A listed job is given one day, or is reported once for every time it is listed; nothing else is given or reported |
| DayAssignment.ReportedTwiceIff | src/krama/scheduler/horizon.py:256-263 | A job is reported more than once if and only if it is listed more than once and has no day or was given none |
| DayAssignment.TodaysLoadIsDemand | src/krama/scheduler/horizon.py:281-289 | The jobs a day is given load it by no more than the capacity constraint sums |
| DayAssignment.LoadIsCrewMinutes | src/krama/scheduler/horizon.py:281-289 | The load of a day's jobs is the number of crew-minutes: job, minute of its duration and place in its crew |
| DayAssignment.DemandIsCrewMinutes | src/krama/scheduler/horizon.py:281-300 | What the capacity constraint sums, overall and per certification, is the crew-minutes of the jobs the answer puts on the day, and of those that need the certification |
| DayAssignment.ChoiceOkIff | src/krama/scheduler/horizon.py:265-310 | Days for jobs meet the constraints of the day model if and only if each job has one of its days or none, and no day is given more crew-minutes, overall or of the jobs that need a certification, than it has and was found to take |
| DayAssignment.PlacedIsWithinDemand | src/krama/scheduler/horizon.py:281-300 | The crew-minutes of the jobs a day is given, overall and per certification, are within what the constraint sums |
| DayAssignment.MissingOneLoadsLess | src/krama/scheduler/horizon.py:478-486 | Routing all but one of a day's jobs is strictly less load |
| Horizon.PlanDays | src/krama/scheduler/horizon.py:460-486 | One pass over the days: a job spilled exactly when some day was given it and does not route it; the override of a spilling day is the number of crew-minutes of the jobs it routed of those it was given, and every other override stays |
| Horizon.LearnedAt | src/krama/scheduler/horizon.py:476-486 | After a round the override of a spilling day is the number of crew-minutes of what it routed, counted without the sum that sets it, and that of any other day what it was |
| Horizon.RoutedStillFits | src/krama/scheduler/horizon.py:476-486 | The work a spilling day routed fits its next capacity, overall and per certification, and fills it exactly |
| Horizon.SpillingAbsorbsLess | src/krama/scheduler/horizon.py:476-486 | A day that spills absorbed strictly less than it was given |
| Horizon.SpillingTightens | src/krama/scheduler/horizon.py:476-489 | With nothing locked a spilling day's next capacity is strictly below the one it was filled under, no day's grows, and total room falls |
| Horizon.Gather | src/krama/scheduler/horizon.py:494-510 | The unserved list holds the unplaceable as often as reported, and the days' leftovers and unrouted candidates once each |
| Horizon.DaysHoldTogether | src/krama/scheduler/horizon.py:460-492 | The days together route each job at most once and account for every known active job given to them |
| Horizon.PlanRound | src/krama/scheduler/horizon.py:444-486 | One turn of the loop keeps assignment, pins and accounts, and uses up room when it spills |
| Horizon.RoomIsDayMinutes | src/krama/scheduler/horizon.py:138-170 | Before anything is learned the room of the horizon is the number of pairs of a day and one of its crew-minutes |
| Horizon.PlanRounds | src/krama/scheduler/horizon.py:444-489 | The loop of rounds: each answers with what the one before taught, the first with nothing learned; it stops only when a round spilled nothing or the limit is reached |
| Horizon.PlanHorizon | src/krama/scheduler/horizon.py:413-528 | Every candidate and every pinned locked job ends in one stop of one route or in the unserved list, never both, reported once or as often as listed when no day was given; the released list is the sorted union of the days'; each round is planned under what the rounds before it taught, the plan is that of the last, and the rounds end early only when it spilled nothing; with nothing locked they are bounded by the crew-minutes, whatever the round limit |
| Horizon.ListedOnceComesOutOnce | src/krama/scheduler/horizon.py:491-510 | Candidates listed once come out exactly once |
| Horizon.BrokenPromisesOfTheHorizonIff | src/krama/scheduler/horizon.py:516-518 | Confirmed work on no route is released by the horizon if and only if in the last round some day was given it, could take it by parts and windows, and had an answer |
| Horizon.DroppedPromisesAreSilent | src/krama/scheduler/horizon.py:444-518 | A confirmed candidate the last assignment gave no day is unserved and not released |
| HorizonAgreement.EmittedRoutesKeepToTheDay | src/krama/scheduler/day_planner.py:764-788 | The routes a day emits are out only on that day |
| HorizonAgreement.DaysPassTogether | src/krama/domain/invariants.py:269-311 | Days that pass one by one stay valid route by route and double-book nobody between them |
| HorizonAgreement.WholeHorizonPasses | src/krama/scheduler/horizon.py:491-492 | A horizon whose days each pass is valid as one plan |
| Solve.SolveDay | src/krama/cli/main.py:249-265 | Planning a day and checking it: every active job comes out once, and when the solver has no answer, or one within the edges, the checker reports nothing and the exit code is zero |
| Solve.SchedulableIsStillToPlace | src/krama/domain/state.py:155-157 | A horizon takes exactly the drafts, the provisional and the confirmed |
| Solve.PlannedDayPasses | src/krama/scheduler/day_planner.py:602-1190 | A day planned under the edges passes the checker by itself and keeps to its day |
| Solve.PlannedDaysPass | src/krama/scheduler/day_planner.py:602-1190 | Of a result's last round: the days given anything, planned by the day planner, each answer within the edges, pass one by one |
| Solve.SolveHorizon | src/krama/cli/main.py:116-149 | Planning a horizon and checking it: every schedulable job comes out once, and when the days are the day planner's and the answers of the last round, of which the plan is made, meet the edges the checker reports nothing of the whole and the exit code is zero |
| EventFold.CarveOutages | src/krama/domain/state.py:187-208 | The in-place carving loop computes the specified remainder |
| EventFold.CarveSubtracts | src/krama/domain/state.py:187-208 | A moment is covered afterwards if and only if it was covered and lies outside the window, open, empty or reversed |
| EventFold.CarveKeepsReal | src/krama/domain/state.py:187-208 | Carving keeps outages well formed |
| EventFold.LiveWorld.ApplyEvent | src/krama/domain/state.py:211-392 | Applying an event in place changes the world exactly as the pure step does, whose effect over whole logs the laws below pin record by record |
| EventFold.FoldLog | src/krama/domain/state.py:395-411 | The filter, sort and apply loop computes the specified fold; see LogLaws.TheWorldFollowsTheLog for what that is |
| FoldLaws.FoldIgnoresOrder | src/krama/domain/state.py:395-411 | When no two different events known at the moment share an id and a recorded moment the fold depends only on which events there are |
| FoldLaws.OrderHiddenIff | src/krama/domain/state.py:402-409 | Every listing of a log gives the same known sequence if and only if no two different events known share an id and a recorded moment |
| FoldLaws.KnownIsTheRecordInTurn | src/krama/domain/state.py:402-404 | What is known at a moment is every event recorded by then, as often as listed, by moment and then by id |
| FoldLaws.SharedIdsExposeOrder | src/krama/domain/state.py:402-409 | Two events that share id and moment can make the order of the log show |
| FoldLaws.RecordDecidesThePast | src/krama/domain/state.py:395-411 | Two logs that list the same events recorded by a moment, in the same order, fold to the same world at it, duplicate ids included |
| FoldLaws.LaterEventsLeaveThePast | src/krama/domain/state.py:395-411 | Events recorded after a moment never change the world at it, whatever their ids |
| FoldLaws.ReplayComposes | src/krama/domain/state.py:395-411 | Folding to t2 is folding to t1 and applying the events recorded between |
| FoldLaws.FoldIsWellKeyed | src/krama/domain/state.py:211-392 | Every folded world files records under their own ids |
| FoldLaws.OutagesFollowTheLog | src/krama/domain/state.py:187-208 | Over a whole log a moment is covered exactly as the sequence of outages and restores says |
| FoldLaws.OutagesStayReal | src/krama/domain/state.py:187-208 | Logs of real outages fold to worlds of real outages |
| FoldLaws.CoversPointwise | src/krama/domain/state.py:62-66 | On real outages the overlap test is the pointwise one for every non-empty interval |
| FoldLaws.AvailabilityFollowsTheLog | src/krama/domain/state.py:162-170 | A rostered worker or van is available for a non-empty interval exactly when the log's last word on no moment of it is that it is out |
| FoldLaws.OfferIsFirstClaim | src/krama/domain/state.py:319-373 | A standing offer is the latest one made, field by field, and its claimant the first eligible claim since |
| FoldLaws.NoStandingOffer | src/krama/domain/state.py:262-267 | Without an offer since the last cancellation there is none in the world |
| FoldLaws.ExtensionIsLatestHour | src/krama/domain/state.py:344-350 | A shift extension is the latest hour ever agreed for that worker and day |
| FoldLaws.EveryOutageWasReported | src/krama/domain/state.py:187-208 | Every outage on file is part of one the log reported, with the reason given then, whatever was carved |
| LogLaws.JobsFollowTheLog | src/krama/domain/state.py:220-285 | Over any log a job is on file exactly when it was asked for, and then: its commitment is the last word on it; its windows and commitment cost those of the last request, confirmation (one window) or reschedule (cost nothing); its duration that of the last request or completion and every overrun since; its deferrals those asked for and one for each since; all else as last asked for |
| LogLaws.RosterFollowsTheLog | src/krama/domain/state.py:332-342 | A worker or van is on the roster as last registered unless removed since, a van home at the depot last moved to since it was registered |
| LogLaws.PricesFollowTheLog | src/krama/domain/state.py:329-330 | Each price is the one last set, and the plan in force the one last committed |
| LogLaws.AsksFollowTheLog | src/krama/domain/state.py:352-365 | An ask is on the board as last opened unless closed since |
| LogLaws.DelaysFollowTheLog | src/krama/domain/state.py:375-384 | The delays are those recorded, in the order learned |
| LogLaws.TheWorldFollowsTheLog | src/krama/domain/state.py:395-411 | Every record of the fold (jobs, roster, prices, asks, delays, the plan in force, the clock and the count) is what the events known at the moment last said of it |
| LogLaws.ActiveFollowsTheLog | src/krama/domain/models.py:250-255 | A job of the fold is active exactly when it was asked for and the last word on it is neither that it is done nor that it is cancelled |
| LogLaws.LockedFollowsTheLog | src/krama/domain/invariants.py:651-658 | Work is locked exactly when it was asked for and the last word is that it is under way or done |
| LogLaws.TheClockIsTheLastLearned | src/krama/domain/state.py:402-407 | A world is of the moment asked for, else of the latest moment anything was recorded |
| PlanVersions.WalkAncestry | src/krama/persistence/log.py:136-145 | The walk ends on any store, cyclic parents included, and returns the specified chain |
| PlanVersions.ChainFollowsParents | src/krama/persistence/log.py:136-145 | Each version once, each followed by its parent, stopping only at a missing or repeated one |
| PlanVersions.ChainOfDescent | src/krama/persistence/s3.py:195-204 | Walking back a line of descent lists exactly that line, newest first |
| PlanVersions.AncestryOfAVersion | src/krama/persistence/log.py:136-145 | Asked of one version of a line of descent, the ancestry is the line up to it, newest first |
| PlanVersions.ContentIff | src/krama/domain/models.py:363-389 | Two plans have the same digest content if and only if their unserved jobs are the same as a multiset and, under each date and crew, their routes agree one by one in van, workers as a multiset, and job, arrival and departure at every stop; no condition on the plans |
| PlanVersions.ObjectCommitIff | src/krama/persistence/s3.py:208-253 | A commit stores exactly when HEAD is the expected one and the id is new or stored with the same decisions; then HEAD moves and nothing stored changes, else nothing changes and the answer names HEAD |
| PlanVersions.OtherTimesAreRefused | src/krama/persistence/s3.py:231-236 | A plan that under a stored id moves one arrival or departure is refused and changes nothing |
| PlanVersions.StoresAgreeIff | src/krama/persistence/s3.py:208-253 | For one writer the file and object stores agree exactly when the commit is stale, its id new, or its version the stored one |
| PlanVersions.StoresStayEqual | src/krama/persistence/s3.py:208-253 | Over any sequence of commits under fresh ids, stale ones among them, the two stores hold the same and answer the same |
| PlanVersions.CommitsStayConsistent | src/krama/persistence/log.py:149-164 | Both stores keep HEAD on a stored version; the object store never changes one |
| PlanVersions.JsonPlanStore.Commit | src/krama/persistence/log.py:149-164 | Read, compare, write the version, then HEAD: the specified file commit |
| PlanVersions.S3PlanStore.Commit | src/krama/persistence/s3.py:208-253 | Conditional version write, then conditional HEAD write: the specified object commit, which stores exactly when HEAD is the expected one and the id is new or its version holds the same decisions, down to every arrival and departure |
| ConditionalObject.AdmittedReplacesWhatWasRead | src/krama/persistence/s3.py:238-246 | A conditional write let through replaces exactly the content its tag was read with |
| CommitProtocol.EveryRunIsOneLine | src/krama/persistence/s3.py:208-253 | Under every interleaving HEAD names a stored version, moves form one line, each replaces its writer's expected parent, and exactly the successful writers moved it, once |
| CommitProtocol.ConflictedNeverMoved | src/krama/persistence/s3.py:247-252 | A writer moved HEAD if and only if its commit succeeded |
| CommitProtocol.VersionsNeverChange | src/krama/persistence/s3.py:219-236 | No stored version changes or disappears in any run |
| CommitProtocol.EveryRunIsSerial | src/krama/persistence/s3.py:208-253 | Every interleaving leaves the HEAD and contents of its successful commits done one at a time |
| CommitProtocol.AncestryIsTheHistoryIff | src/krama/persistence/s3.py:195-253 | When every writer bases its version on the one it expects, the ancestry of HEAD is exactly the earlier line and the successful commits, reversed, if and only if each of these versions is what is on file under its id and no id repeats |
| CommitProtocol.AncestryIsTheHistory | src/krama/persistence/s3.py:195-253 | With fresh ids it always is |
| CommitProtocol.RetryDropsTheWinner | src/krama/persistence/s3.py:231-236 | From any store: a version stored by a writer that loses the race, retried from the winner under the same id, is committed with its first parent and the winner leaves the ancestry |
| CommitProtocol.OneSuccessorEach | src/krama/persistence/s3.py:208-253 | With fresh ids at most one of the writers that start from a version succeeds |
| CommitProtocol.AloneIsOneCommit | src/krama/persistence/s3.py:208-253 | The requests of a commit left alone amount to the one-step commit, outcome included, and touch no other writer |
| FileProtocol.EveryRunIsOk | src/krama/persistence/log.py:149-164 | Under every interleaving of checks, version writes and moves, whatever ids are used: HEAD is the last move's version, on file under its own id, every writer past its check expected the HEAD of that moment, and under each id lies the last version written under it, or what was there before |
| FileProtocol.NothingIsOverwritten | src/krama/persistence/log.py:149-164 | With an id of its own for each writer, new to the store, everything written or there before stays on file |
| FileProtocol.ReusedIdsDropHistory | src/krama/persistence/log.py:149-164 | From any store with a history: one writer alone that carries on from HEAD under the id of an earlier version succeeds, and that version and all before it are gone from the ancestry |
| FileProtocol.AncestryIsWhatWasChecked | src/krama/persistence/log.py:136-164 | In every interleaving with fresh ids the ancestry of HEAD follows, from each move, the HEAD its writer had compared, not the one it replaced |
| FileProtocol.NothingIsLostIff | src/krama/persistence/log.py:149-164 | With fresh ids every successful commit is in the ancestry of HEAD if and only if no HEAD was replaced between a successful writer's check and its own move |
| FileProtocol.FilesCanLoseACommit | src/krama/persistence/log.py:149-164 | From any store a run of the protocol in which two writers check before either writes: both succeed and the first one's version is not in the ancestry |
| AppendProtocol.NoEventIsLost | src/krama/persistence/s3.py:116-140 | Under every interleaving the log is what it was plus the successful batches, whole, once, in order |
| AppendProtocol.LogOnlyGrows | src/krama/persistence/s3.py:116-140 | Every earlier state of the log is a prefix of every later one |
| Diff.PlacedWhereRouted | src/krama/domain/diff.py:174-192 | Exactly the routed jobs are placed, each where the last of its stops is |
| Diff.OnlyStopIsThePlacement | src/krama/domain/diff.py:174-192 | On a plan without duplicates the placement is the job's only stop |
| Diff.WhatHappened | src/krama/domain/diff.py:195-257 | A job is left out of the diff if and only if it is placed in neither plan, or in both on the same day, at the same minute, with the same crew set and van; else the change says added, dropped, rescheduled or retimed exactly when it was, with what the world promised |
| Diff.DiffPlans | src/krama/domain/diff.py:207-257 | One classified change for each job something happened to, no other, by id |
| Diff.NoCallsIffNothingVisible | src/krama/domain/diff.py:155-157 | There is nobody to tell exactly when no change is visible |
| Diff.VisibleIffAPromiseBroke | src/krama/domain/diff.py:78-110 | A diff is customer-visible if and only if a promised job lost its day, or its minute without its window covering the whole visit |
| Diff.CrewOnlyIff | src/krama/domain/diff.py:138-153 | A diff touches crews only if and only if every promise is kept and somebody else comes, or another van, at the same time |
| Diff.CallsAreTheVisible | src/krama/domain/diff.py:155-157 | The calls to make are as many as there are visible changes |
| Diff.Decide | src/krama/domain/autonomy.py:65-98 | Auto-applied exactly when nothing is visible and every limit holds; an escalation gives each reason exactly when it is one, with its numbers, a broken promise first |
| Repair.LockedJobs | src/krama/scheduler/repair.py:129-135 | The sorted ids of exactly the dispatched and completed jobs |
| Repair.CarveOutLocked | src/krama/scheduler/repair.py:215-279 | The loops return the driven prefixes and the world without their jobs and with their crews and vans taken |
| Repair.ReducedKeepsTheRest | src/krama/scheduler/repair.py:257-279 | The reduced world lacks exactly the carried jobs and differs from the real one in nothing else but outages |
| Repair.ReducedSaysExactly | src/krama/scheduler/repair.py:259-278 | A route fits the reduced world's outages if and only if it fits the real ones and clashes with no carried route |
| Repair.CarriedStayExclusive | src/krama/scheduler/repair.py:243-257 | Cutting chronological routes short double-books nobody |
| Repair.NoJobTwice | src/krama/scheduler/repair.py:257-272 | No job is both carried and planned |
| Repair.CarryingMovesNothing | src/krama/domain/invariants.py:638-687 | Carried routes plus any others pass the baseline check if and only if the baseline agrees with itself |
| Repair.DistinctPlanAgrees | src/krama/domain/invariants.py:638-687 | A baseline without duplicate jobs agrees with itself |
| RepairSoundness.PassesInTheRealWorld | src/krama/scheduler/repair.py:215-279 | A route valid in the reduced world is valid in the real one and clashes with nothing carried |
| RepairSoundness.DrivenPartPassesIff | src/krama/scheduler/repair.py:243-256 | Of a route that once passed every check but availability, by the roads and settings of then, the driven part is valid by those of now if and only if every driven stop lasts as long as its job is now said to take, every road driven still gets there in time for the departure the checker reads, a promise no longer released is kept, no outage meets the driven part, and everyone aboard may work overtime or has a shift lasting to the time of day it ends |
| RepairSoundness.DrivenPartPassesNow | src/krama/scheduler/repair.py:243-256 | In one world, on the same roads: the driven part is valid if and only if no outage meets it and everyone aboard may end where it ends |
| RepairSoundness.TheDayMovesOn | src/krama/domain/state.py:211-392 | Any events but those that change a route's crew, van or depot or request, confirm or reschedule its jobs leave the records a repair relies on as that result needs them; of the roads see RoadsMoveOn |
| RepairSoundness.RoadsMoveOn | src/krama/service.py:142-163 | Such events, of which no traffic delay is in force on a driven drive when it was set out on, leave every driven leg fitting by the roads the new world gives |
| RepairSoundness.RepairAfterTheDay | src/krama/scheduler/repair.py:138-194 | After any such day the repair of a valid plan is valid if and only if the driven stops still last long enough, nobody was out while they were driven, and their crews may end where they end |
| Traffic.DelaysCompound | src/krama/domain/state.py:178-184 | The delays of two lists laid over the roads together come to the product of what each comes to |
| Traffic.DelaysAreOneWay | src/krama/domain/state.py:114-119 | A delay from one place to another, while it lasts, slows that drive and never the drive back |
| Traffic.RoundIsNearest | src/krama/domain/travel.py:25-27 | Scaled minutes are rounded to the nearest whole minute, halves to the even one |
| Traffic.RoadsAreTheDelayed | src/krama/cli/main.py:76-86 | Skipping the layer while nothing is recorded changes no drive |
| Traffic.FurtherDelay | src/krama/domain/state.py:114-119 | One more delay changes no drive it is not in force on, and one that is no speed-up makes none quicker, rounding included |
| RepairSoundness.EndingTheSameDaySuffices | src/krama/domain/invariants.py:484-519 | A route within hours that ends the day it starts may be cut anywhere |
| RepairWitness.MidRouteOutageIsAbsorbed | src/krama/scheduler/repair.py:243-256 | A fitter sent home in the middle of a route: the route fails and its driven part is valid |
| RepairWitness.RunningOverSpoilsTheDay | src/krama/domain/state.py:233-262 | A job reported done later than its slot: the route was valid until then, and no repair of the day is |
| RepairWitness.DelaysReachTheDriven | src/krama/service.py:142-163 | A delay recorded after the drive it slows: the route was valid until then, its records and everything else about what was driven are in order, and no repair of the day is valid |
| RepairWitness.AfterMidnightReadsAsEarly | src/krama/domain/invariants.py:484-519 | A valid route ending after midnight whose driven part, up to its one locked stop, is not valid |
| RepairSoundness.CarriedPassIff | src/krama/scheduler/repair.py:243-256 | The carried routes are all valid if and only if the driven part of each route in flight is |
| RepairSoundness.RepairIsSound | src/krama/scheduler/repair.py:138-194 | Carried work plus a plan valid in the reduced world repeats no job, double-books nobody and moves nothing locked, and is valid in the real one if and only if the carried routes are |
| RepairSoundness.RepairOfASoundPlan | src/krama/scheduler/repair.py:138-194 | Repairing a plan that was valid before the day moved on, by other roads and settings: valid now if and only if every driven stop still lasts long enough, every driven road still fits, promises no longer released are kept, nobody was out while it was driven, and its crew may end where it ends, whatever hits the rest of the route |
| RepairSoundness.OverrunsFailEveryRepair | src/krama/domain/invariants.py:346-414 | A driven stop shorter than its job is now said to take, or a driven road that no longer fits, fails every repair there could be |
| Reroute.RepairPlan | src/krama/scheduler/repair.py:138-194 | Each candidate is the carried work plus its replanned routes, a child of the baseline, with its diff |
| Reroute.CandidatesKeepLocked | src/krama/scheduler/repair.py:138-194 | No candidate of any strategy moves locked work |
| Reroute.BestIsFirstBest | src/krama/scheduler/repair.py:112-126 | The recommendation is the first candidate than which none needs fewer calls, none with as few serves more jobs, and none like it in both changes less |
| Reroute.CandidatesDiffer | src/krama/scheduler/repair.py:160-190 | No two candidates of one repair share a version id |
| Reroute.QuietReroute | src/krama/api/main.py:658-707 | Commits exactly when every guard holds; what it commits is violation-free with nothing released, serves every job the baseline served, keeps every promise, moves no work in flight of a duplicate-free baseline and replaces exactly the baseline |
| Calendar.Flush | web/src/components/Calendar.tsx:152-169 | A cluster's columns never overlap, are filled leftmost, and number exactly the most any stop needs: itself and those before it still running when it starts, stops of no length included |
| Calendar.WidthIsThePeak | web/src/components/Calendar.tsx:155-164 | When every stop takes time that number is the most stops ever running at once |
| Calendar.Layout | web/src/components/Calendar.tsx:143-180 | Every stop of every route exactly as often as it is listed, by start, no two blocks meet, and each cluster exactly as wide as some stop of it needs, whatever the lengths |
| Calendar.GapByClusterEnd | web/src/components/Calendar.tsx:171-177 | The running end finds a gap exactly where nothing earlier runs on |
| Calendar.ColumnsAreEnough | web/src/components/Calendar.tsx:155-164 | No moment has more stops running than there are columns |
| Calendar.AnInstantCanCostAColumn | web/src/components/Calendar.tsx:155-164 | With a stop of no length the column count can exceed the busiest moment |

## Left out

- The CP-SAT search, its time budget and seeds: the solver is any answer that meets the constraints, or none.
- Terms of the cost: unserved and reschedule penalties, lateness, overtime, mileage and staying put; the cost is any function of the assignment, so the objective result does not depend on them.
- The variables that only price an answer (lateness, staying with the incumbent) and the solver hints: they restrict no route.
- Pruned arcs are not subtracted from the day's constraints, which only widens the set of answers the agreement holds for.
- Reasons and texts attached to unserved jobs and the detail text of violations: messages; which jobs are unserved is modelled.
- Sector spread, urgency and the delay penalty of day assignment: objective terms; the answer is any that meets the constraints.
- DayAssignment.DayCapacity: utilization is an exact real, so a product that rounds differently in floating point can differ by a minute.
- DayAssignment.AssignDays: asks that a repeated id means the same job, as its one caller's lookup in the world ensures.
- Horizon.PlanHorizon: capacities and both solvers are parameters, the results hold for all of them; metrics are not modelled.
- Horizon.SpillingTightens: stated for no locked work, because work locked onto a day is not bounded by that day's capacity.
- RepairSoundness.RepairIsSound: the replanned routes are any that pass the checker in the reduced world, as the planner's do within the edges.
- Reroute.QuietReroute: the store may have moved since each read and the world may differ between the check and the repair, whose candidates are those of RepairPlan, but the commit itself is one step here; its interleaving with other writers is CommitProtocol's subject.
- Seconds, time zones and daylight saving: a moment is a minute on one axis.
- The SHA-256 of a plan's content: a digest is the decisions it is taken over.
- Stripping and decoding of HEAD and version bodies, crashes between file writes, temporary files and missing permissions.
- A write whose answer is lost on the network: each request is either refused or seen by its writer to succeed.
- Geocoding, distance, sector bearings, travel providers and their caches: the travel oracle is a parameter; of the providers only their dependence on the traffic bucket is stated.
- Buckets.BucketedTravelSuffices: says nothing of incidents that start between two probes; on such roads Pessimistic stays a hypothesis.
- Language-model agents, prompts, intake and evaluation code.
- HTTP routes other than the quiet reroute, server-sent events, authentication, SMS, the command line beyond solving and checking, React components other than the layout.
- Traffic.TrafficMultiplier: multipliers are exact reals, so floating-point products are not modelled; live incidents from a traffic feed are part of the base roads.
- Pricing, catalogue lookups, booking-slot ordering and clock texts: single expressions.
