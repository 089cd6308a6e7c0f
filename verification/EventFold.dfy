/** The event log and the world it folds to (domain/events.py, domain/state.py). */
module EventFold {
  import opened Collections
  import opened Domain

  datatype Fact =
    | WorkerRegistered(worker: Worker)
    | VanRegistered(van: Van)
    | JobRequested(job: Job)
    | JobConfirmed(jobId: JobId, window: Window, commitmentCost: int)
    | JobDispatched(jobId: JobId)
    | JobStarted(jobId: JobId)
    | JobCompleted(jobId: JobId, actualDuration: positive)
    | JobOverran(jobId: JobId, extraMinutes: positive)
    | JobCancelled(jobId: JobId)
    | CustomerRescheduled(jobId: JobId, newWindows: seq<Window>)
    | JobDeferred(jobId: JobId)
    | WorkerUnavailable(workerId: WorkerId, from: Moment, until: Option<Moment>, reason: string)
    | WorkerRestored(workerId: WorkerId, windowStart: Option<Moment>, windowEnd: Option<Moment>)
    | VanUnavailable(vanId: VanId, from: Moment, until: Option<Moment>, reason: string)
    | VanRestored(vanId: VanId, windowStart: Option<Moment>, windowEnd: Option<Moment>)
    | OvertimeOffered(jobId: JobId, onDate: Day, offeredTo: seq<WorkerId>, fallback: WorkerId,
                      overtimeMinutes: int, claimDeadline: Moment)
    | OvertimeClaimed(jobId: JobId, workerId: WorkerId)
    | RateCardChanged(entries: map<string, real>)
    | DepotMoved(location: Location)
    | WorkerRemoved(workerId: WorkerId)
    | VanRemoved(vanId: VanId)
    | ShiftExtended(workerId: WorkerId, onDate: Day, agreedHour: Moment)
    | CrewAskOpened(ask: CrewAsk)
    | CrewAskClosed(askId: string)
    | TrafficDelay(delay: TrafficOverride)
    | PlanCommitted(planId: PlanId)
    | AuditOnly(kind: string)

  /** `occurredAt` is when it happened, `recordedAt` when it was learned. */
  datatype Event = Event(id: string, occurredAt: Moment, recordedAt: Moment, what: Fact)

  // ------------------------------------------------------------------- carving

  predicate AtOrAfter(m: Moment, end: Option<Moment>) { end.Some? && end.value <= m }

  /** What is left of one outage when `[start, end)` is taken out of it. */
  function CarveOne(o: Unavailability, start: Moment, end: Option<Moment>): seq<Unavailability> {
    var beforeWindow := o.until.Some? && o.until.value <= start;
    var afterWindow := end.Some? && o.from >= end.value;
    if beforeWindow || afterWindow then [o]
    else
      (if o.from < start then [o.(until := Some(start))] else [])
      + (if end.Some? && (o.until.None? || o.until.value > end.value) then [o.(from := end.value)] else [])
  }

  function Carve(outages: seq<Unavailability>, start: Moment, end: Option<Moment>): seq<Unavailability> {
    if outages == [] then []
    else Carve(outages[..|outages| - 1], start, end) + CarveOne(outages[|outages| - 1], start, end)
  }

  method CarveOutages(outages: seq<Unavailability>, start: Moment, end: Option<Moment>)
    returns (kept: seq<Unavailability>)
    ensures kept == Carve(outages, start, end)
  {
    kept := [];
    for i := 0 to |outages|
      invariant kept == Carve(outages[..i], start, end)
    {
      var o := outages[i];
      assert outages[..i + 1][..i] == outages[..i];
      var rest: seq<Unavailability> := [];
      if (o.until.Some? && o.until.value <= start) || (end.Some? && o.from >= end.value) {
        rest := [o];
      } else {
        if o.from < start {
          rest := [o.(until := Some(start))];
        }
        if end.Some? && (o.until.None? || o.until.value > end.value) {
          rest := rest + [o.(from := end.value)];
        }
      }
      assert rest == CarveOne(o, start, end);
      kept := kept + rest;
    }
    assert outages[..|outages|] == outages;
  }

  predicate Spans(o: Unavailability, m: Moment) { o.from <= m && !AtOrAfter(m, o.until) }

  predicate InWindow(m: Moment, start: Moment, end: Option<Moment>) { start <= m && !AtOrAfter(m, end) }

  /** Whether some outage is in force at a moment. */
  ghost predicate Covered(outages: seq<Unavailability>, m: Moment) {
    exists i :: 0 <= i < |outages| && Spans(outages[i], m)
  }

  lemma CoveredConcat(a: seq<Unavailability>, b: seq<Unavailability>, m: Moment)
    ensures Covered(a + b, m) <==> Covered(a, m) || Covered(b, m)
  {
    if Covered(a, m) {
      var i :| 0 <= i < |a| && Spans(a[i], m);
      assert (a + b)[i] == a[i];
    }
    if Covered(b, m) {
      var i :| 0 <= i < |b| && Spans(b[i], m);
      assert (a + b)[|a| + i] == b[i];
    }
  }

  /** Carving is exact subtraction, for every outage and every window, open, empty or reversed. */
  lemma {:induction false} CarveSubtracts(outages: seq<Unavailability>, start: Moment, end: Option<Moment>, m: Moment)
    ensures Covered(Carve(outages, start, end), m) <==> Covered(outages, m) && !InWindow(m, start, end)
  {
    if outages != [] {
      var body, last := outages[..|outages| - 1], outages[|outages| - 1];
      CarveSubtracts(body, start, end, m);
      CoveredConcat(Carve(body, start, end), CarveOne(last, start, end), m);
      CoveredConcat(body, [last], m);
      assert outages == body + [last];
      CarveOneSubtracts(last, start, end, m);
    }
  }

  lemma CarveOneSubtracts(o: Unavailability, start: Moment, end: Option<Moment>, m: Moment)
    ensures Covered(CarveOne(o, start, end), m) <==> Spans(o, m) && !InWindow(m, start, end)
    ensures Covered([o], m) <==> Spans(o, m)
  {
    var pieces := CarveOne(o, start, end);
    assert [o][0] == o;
    if Spans(o, m) && !InWindow(m, start, end) {
      assert exists i :: 0 <= i < |pieces| && Spans(pieces[i], m) by {
        if m < start {
          assert Spans(pieces[0], m);
        } else {
          assert Spans(pieces[|pieces| - 1], m);
        }
      }
    }
  }

  predicate AllReal(outages: seq<Unavailability>) {
    forall i :: 0 <= i < |outages| ==> WellFormed(outages[i])
  }

  lemma {:induction false} CarveKeepsReal(outages: seq<Unavailability>, start: Moment, end: Option<Moment>)
    requires AllReal(outages)
    ensures AllReal(Carve(outages, start, end))
  {
    if outages != [] {
      CarveKeepsReal(outages[..|outages| - 1], start, end);
    }
  }

  // ------------------------------------------------------------------ applying

  function AddOutage(outages: map<string, seq<Unavailability>>, id: string, o: Unavailability)
    : map<string, seq<Unavailability>>
  {
    outages[id := GetOr(outages, id, []) + [o]]
  }

  function CarveIn(outages: map<string, seq<Unavailability>>, id: string, start: Moment, end: Option<Moment>)
    : map<string, seq<Unavailability>>
  {
    if id in outages then outages[id := Carve(outages[id], start, end)] else outages
  }

  function Or(a: Option<Moment>, b: Moment): Moment { if a.Some? then a.value else b }

  function OfferFrom(f: Fact): OvertimeOffer
    requires f.OvertimeOffered?
  {
    OvertimeOffer(f.jobId, f.onDate, f.offeredTo, f.fallback, f.overtimeMinutes, f.claimDeadline, None)
  }

  function Requested(job: Job): Job { if job.commitment.Draft? then job.(commitment := Provisional) else job }

  function Moved(v: Van, depot: Location): Van { v.(homeDepot := depot) }

  function NextWorkers(m: map<WorkerId, Worker>, f: Fact): map<WorkerId, Worker> {
    match f
    case WorkerRegistered(worker) => m[worker.id := worker]
    case WorkerRemoved(id) => m - {id}
    case _ => m
  }

  function NextVans(m: map<VanId, Van>, f: Fact): map<VanId, Van> {
    match f
    case VanRegistered(van) => m[van.id := van]
    case DepotMoved(location) => map v | v in m :: Moved(m[v], location)
    case VanRemoved(id) => m - {id}
    case _ => m
  }

  /** A job after an event that names it. */
  function NextJob(j: Job, f: Fact): Job {
    match f
    case JobConfirmed(_, window, cost) => j.(commitment := Confirmed, commitmentCost := cost, windows := [window])
    case JobDispatched(_) => j.(commitment := Dispatched)
    case JobStarted(_) => j.(commitment := Dispatched)
    case JobCompleted(_, actual) => j.(commitment := Completed, duration := actual)
    case JobOverran(_, extra) => j.(duration := j.duration + extra)
    case JobCancelled(_) => j.(commitment := Cancelled)
    case CustomerRescheduled(_, windows) => j.(windows := windows, commitment := Provisional, commitmentCost := 0)
    case JobDeferred(_) => j.(deferrals := j.deferrals + 1)
    case _ => j
  }

  predicate JobFact(f: Fact) {
    f.JobRequested? || f.JobConfirmed? || f.JobDispatched? || f.JobStarted? || f.JobCompleted? || f.JobOverran?
    || f.JobCancelled? || f.CustomerRescheduled? || f.JobDeferred?
  }

  function NextJobs(m: map<JobId, Job>, f: Fact): map<JobId, Job> {
    if f.JobRequested? then m[f.job.id := Requested(f.job)]
    else if JobFact(f) && f.jobId in m then m[m[f.jobId].id := NextJob(m[f.jobId], f)]
    else m
  }

  function NextWorkerOutages(m: map<WorkerId, seq<Unavailability>>, e: Event): map<WorkerId, seq<Unavailability>> {
    match e.what
    case WorkerUnavailable(id, from, until, reason) => AddOutage(m, id, Unavailability(from, until, reason))
    case WorkerRestored(id, start, end) => CarveIn(m, id, Or(start, e.occurredAt), end)
    case WorkerRemoved(id) => m - {id}
    case _ => m
  }

  function NextVanOutages(m: map<VanId, seq<Unavailability>>, e: Event): map<VanId, seq<Unavailability>> {
    match e.what
    case VanUnavailable(id, from, until, reason) => AddOutage(m, id, Unavailability(from, until, reason))
    case VanRestored(id, start, end) => CarveIn(m, id, Or(start, e.occurredAt), end)
    case VanRemoved(id) => m - {id}
    case _ => m
  }

  function NextOffers(m: map<JobId, OvertimeOffer>, f: Fact): map<JobId, OvertimeOffer> {
    match f
    case OvertimeOffered(id, _, _, _, _, _) => m[id := OfferFrom(f)]
    case OvertimeClaimed(id, worker) =>
      if id in m && m[id].claimedBy.None? && worker in m[id].offeredTo
      then m[id := m[id].(claimedBy := Some(worker))] else m
    case JobCancelled(id) => m - {id}
    case _ => m
  }

  function NextExtensions(m: map<(WorkerId, Day), Moment>, f: Fact): map<(WorkerId, Day), Moment> {
    match f
    case ShiftExtended(worker, date, hour) =>
      if (worker, date) !in m || hour > m[(worker, date)] then m[(worker, date) := hour] else m
    case _ => m
  }

  function NextAsks(m: map<string, CrewAsk>, f: Fact): map<string, CrewAsk> {
    match f
    case CrewAskOpened(ask) => m[ask.askId := ask]
    case CrewAskClosed(id) => m - {id}
    case _ => m
  }

  function NextRates(m: map<string, real>, f: Fact): map<string, real> {
    if f.RateCardChanged? then m + f.entries else m
  }

  function NextTraffic(s: seq<TrafficOverride>, f: Fact): seq<TrafficOverride> {
    if f.TrafficDelay? then s + [f.delay] else s
  }

  function NextCommitted(p: Option<PlanId>, f: Fact): Option<PlanId> {
    if f.PlanCommitted? then Some(f.planId) else p
  }

  /** The world after one more event, part by part: each part looks only at itself and the event. */
  function Apply(w: World, e: Event): World {
    World(w.asOf,
          NextWorkers(w.workers, e.what),
          NextVans(w.vans, e.what),
          NextJobs(w.jobs, e.what),
          NextWorkerOutages(w.workerOutages, e),
          NextVanOutages(w.vanOutages, e),
          NextOffers(w.overtimeOffers, e.what),
          NextExtensions(w.shiftExtensions, e.what),
          NextAsks(w.crewAsks, e.what),
          NextRates(w.rateCard, e.what),
          NextTraffic(w.trafficOverrides, e.what),
          NextCommitted(w.committedPlan, e.what),
          w.appliedEvents)
  }

  function Empty(asOf: Moment): World {
    World(asOf, map[], map[], map[], map[], map[], map[], map[], map[], map[], [], None, 0)
  }

  function Replay(w: World, events: seq<Event>): World {
    if events == [] then w
    else Apply(Replay(w, events[..|events| - 1]), events[|events| - 1])
  }

  // ---------------------------------------------------------------------- fold

  /** The order in which things were learned; the event id breaks ties. */
  predicate EventLe(a: Event, b: Event) {
    a.recordedAt < b.recordedAt || (a.recordedAt == b.recordedAt && StringLe(a.id, b.id))
  }

  lemma EventLeIsPreorder()
    ensures TotalPreorder(EventLe)
  {
    StringLeIsOrder();
  }

  function RecordedBy(events: seq<Event>, asOf: Option<Moment>): (r: seq<Event>) {
    if events == [] then []
    else
      var rest := RecordedBy(events[..|events| - 1], asOf);
      if asOf.None? || events[|events| - 1].recordedAt <= asOf.value then rest + [events[|events| - 1]] else rest
  }

  const EARLIEST: Moment := DayStart(1)

  function Known(events: seq<Event>, asOf: Option<Moment>): seq<Event> {
    RecordedBy(Sort(events, EventLe), asOf)
  }

  function ResolvedAsOf(known: seq<Event>, asOf: Option<Moment>): Moment {
    if asOf.Some? then asOf.value
    else if known != [] then known[|known| - 1].recordedAt else EARLIEST
  }

  function Fold(events: seq<Event>, asOf: Option<Moment>): World {
    var known := Known(events, asOf);
    Replay(Empty(ResolvedAsOf(known, asOf)), known).(appliedEvents := |known|)
  }

  // --------------------------------------------------------- the world in place

  /** The world as the source holds it: dictionaries changed in place, event by event. */
  class LiveWorld {
    var asOf: Moment
    var workers: map<WorkerId, Worker>
    var vans: map<VanId, Van>
    var jobs: map<JobId, Job>
    var workerOutages: map<WorkerId, seq<Unavailability>>
    var vanOutages: map<VanId, seq<Unavailability>>
    var overtimeOffers: map<JobId, OvertimeOffer>
    var shiftExtensions: map<(WorkerId, Day), Moment>
    var crewAsks: map<string, CrewAsk>
    var rateCard: map<string, real>
    var trafficOverrides: seq<TrafficOverride>
    var committedPlan: Option<PlanId>
    var appliedEvents: nat

    function View(): World
      reads this
    {
      World(asOf, workers, vans, jobs, workerOutages, vanOutages, overtimeOffers, shiftExtensions, crewAsks,
            rateCard, trafficOverrides, committedPlan, appliedEvents)
    }

    constructor (asOf: Moment)
      ensures View() == Empty(asOf)
    {
      this.asOf := asOf;
      workers, vans, jobs := map[], map[], map[];
      workerOutages, vanOutages, overtimeOffers := map[], map[], map[];
      shiftExtensions, crewAsks, rateCard := map[], map[], map[];
      trafficOverrides, committedPlan, appliedEvents := [], None, 0;
    }

    method ApplyEvent(e: Event)
      modifies this
      ensures View() == Apply(old(View()), e)
    {
      if JobFact(e.what) {
        ApplyToJob(e);
      } else if OutageFact(e.what) {
        ApplyOutage(e);
      } else if AgreementFact(e.what) {
        ApplyAgreement(e);
      } else if RosterFact(e.what) {
        ApplyRoster(e);
      } else {
        ApplyNote(e);
      }
    }

    /** Who and what there is. */
    method ApplyRoster(e: Event)
      requires RosterFact(e.what)
      modifies this
      ensures View() == Apply(old(View()), e)
    {
      if e.what.WorkerRemoved? || e.what.VanRemoved? {
        ApplyRemoval(e);
        return;
      }
      match e.what {
        case WorkerRegistered(worker) => workers := workers[worker.id := worker];
        case VanRegistered(van) => vans := vans[van.id := van];
        case DepotMoved(location) => vans := map v | v in vans :: Moved(vans[v], location);
      }
    }

    method ApplyRemoval(e: Event)
      requires e.what.WorkerRemoved? || e.what.VanRemoved?
      modifies this
      ensures View() == Apply(old(View()), e)
    {
      match e.what {
        case WorkerRemoved(id) =>
          workers := workers - {id};
          workerOutages := workerOutages - {id};
        case VanRemoved(id) =>
          vans := vans - {id};
          vanOutages := vanOutages - {id};
      }
    }

    /** Prices, asks, traffic and commits; the audit-only events change nothing. */
    method ApplyNote(e: Event)
      requires !JobFact(e.what) && !OutageFact(e.what) && !AgreementFact(e.what) && !RosterFact(e.what)
      modifies this
      ensures View() == Apply(old(View()), e)
    {
      match e.what {
        case RateCardChanged(entries) => rateCard := rateCard + entries;
        case CrewAskOpened(ask) => crewAsks := crewAsks[ask.askId := ask];
        case CrewAskClosed(id) => crewAsks := crewAsks - {id};
        case TrafficDelay(delay) => trafficOverrides := trafficOverrides + [delay];
        case PlanCommitted(id) => committedPlan := Some(id);
        case AuditOnly(_) =>
      }
    }

    /** The events of one job's life. */
    method ApplyToJob(e: Event)
      requires JobFact(e.what)
      modifies this
      ensures View() == Apply(old(View()), e)
    {
      if e.what.JobRequested? {
        var job := e.what.job;
        jobs := jobs[job.id := if job.commitment.Draft? then job.(commitment := Provisional) else job];
        return;
      }
      if e.what.JobCancelled? {
        overtimeOffers := overtimeOffers - {e.what.jobId};
      }
      if e.what.jobId !in jobs {
        return;
      }
      var j := jobs[e.what.jobId];
      match e.what {
        case JobConfirmed(_, window, cost) =>
          jobs := jobs[j.id := j.(commitment := Confirmed, commitmentCost := cost, windows := [window])];
        case JobDispatched(_) => jobs := jobs[j.id := j.(commitment := Dispatched)];
        case JobStarted(_) => jobs := jobs[j.id := j.(commitment := Dispatched)];
        case JobCompleted(_, actual) => jobs := jobs[j.id := j.(commitment := Completed, duration := actual)];
        case JobOverran(_, extra) => jobs := jobs[j.id := j.(duration := j.duration + extra)];
        case JobCancelled(_) => jobs := jobs[j.id := j.(commitment := Cancelled)];
        case CustomerRescheduled(_, windows) =>
          jobs := jobs[j.id := j.(windows := windows, commitment := Provisional, commitmentCost := 0)];
        case JobDeferred(_) => jobs := jobs[j.id := j.(deferrals := j.deferrals + 1)];
      }
    }

    /** Outages recorded and carved away. */
    method ApplyOutage(e: Event)
      requires OutageFact(e.what)
      modifies this
      ensures View() == Apply(old(View()), e)
    {
      match e.what {
        case WorkerUnavailable(id, from, until, reason) =>
          workerOutages := workerOutages[id := GetOr(workerOutages, id, []) + [Unavailability(from, until, reason)]];
        case WorkerRestored(id, start, end) =>
          if id in workerOutages {
            var kept := CarveOutages(workerOutages[id], Or(start, e.occurredAt), end);
            workerOutages := workerOutages[id := kept];
          }
        case VanUnavailable(id, from, until, reason) =>
          vanOutages := vanOutages[id := GetOr(vanOutages, id, []) + [Unavailability(from, until, reason)]];
        case VanRestored(id, start, end) =>
          if id in vanOutages {
            var kept := CarveOutages(vanOutages[id], Or(start, e.occurredAt), end);
            vanOutages := vanOutages[id := kept];
          }
      }
    }

    /** What people agreed to: offers, claims, longer days. */
    method ApplyAgreement(e: Event)
      requires AgreementFact(e.what)
      modifies this
      ensures View() == Apply(old(View()), e)
    {
      match e.what {
        case OvertimeOffered(id, onDate, offeredTo, fallback, minutes, deadline) =>
          overtimeOffers :=
            overtimeOffers[id := OvertimeOffer(id, onDate, offeredTo, fallback, minutes, deadline, None)];
        case OvertimeClaimed(id, worker) =>
          if id in overtimeOffers {
            var offer := overtimeOffers[id];
            if offer.claimedBy.None? && worker in offer.offeredTo {
              overtimeOffers := overtimeOffers[id := offer.(claimedBy := Some(worker))];
            }
          }
        case ShiftExtended(worker, date, until) =>
          var key := (worker, date);
          if key !in shiftExtensions || until > shiftExtensions[key] {
            shiftExtensions := shiftExtensions[key := until];
          }
      }
    }

    method ApplyAll(events: seq<Event>)
      modifies this
      ensures View() == Replay(old(View()), events)
    {
      for i := 0 to |events|
        invariant View() == Replay(old(View()), events[..i])
      {
        assert events[..i + 1][..i] == events[..i];
        ApplyEvent(events[i]);
      }
      assert events[..|events|] == events;
    }
  }

  predicate OutageFact(f: Fact) {
    f.WorkerUnavailable? || f.WorkerRestored? || f.VanUnavailable? || f.VanRestored?
  }

  predicate AgreementFact(f: Fact) { f.OvertimeOffered? || f.OvertimeClaimed? || f.ShiftExtended? }

  predicate RosterFact(f: Fact) {
    f.WorkerRegistered? || f.VanRegistered? || f.DepotMoved? || f.WorkerRemoved? || f.VanRemoved?
  }

  method KnownAt(events: seq<Event>, asOf: Option<Moment>) returns (known: seq<Event>)
    ensures known == Known(events, asOf)
  {
    var ordered := Sort(events, EventLe);
    known := [];
    for i := 0 to |ordered|
      invariant known == RecordedBy(ordered[..i], asOf)
    {
      assert ordered[..i + 1][..i] == ordered[..i];
      if asOf.None? || ordered[i].recordedAt <= asOf.value {
        known := known + [ordered[i]];
      }
    }
    assert ordered[..|ordered|] == ordered;
  }

  method FoldLog(events: seq<Event>, asOf: Option<Moment>) returns (world: LiveWorld)
    ensures fresh(world) && world.View() == Fold(events, asOf)
  {
    var known := KnownAt(events, asOf);
    world := new LiveWorld(ResolvedAsOf(known, asOf));
    world.ApplyAll(known);
    world.appliedEvents := |known|;
  }
}
