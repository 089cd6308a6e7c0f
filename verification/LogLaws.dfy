/** What a whole log makes of each record: the last word on it, and the counts since (domain/state.py). */
module LogLaws {
  import opened Collections
  import opened Domain
  import opened EventFold
  import FoldLaws
  import I = Invariants

  // -------------------------------------------------------------- the last word

  /** The last thing said, if anything was. */
  function LastSaid<V>(events: seq<Event>, says: Event -> Option<V>): Option<V> {
    if events == [] then None
    else
      var n := |events| - 1;
      if says(events[n]).Some? then says(events[n]) else LastSaid(events[..n], says)
  }

  /** What happened after that. */
  function Since<V>(events: seq<Event>, says: Event -> Option<V>): seq<Event> {
    if events == [] then []
    else
      var n := |events| - 1;
      if says(events[n]).Some? then [] else Since(events[..n], says) + [events[n]]
  }

  predicate NothingSaid<V>(events: seq<Event>, says: Event -> Option<V>, start: nat) {
    forall j :: start <= j < |events| ==> says(events[j]).None?
  }

  /** What was last said was said by some event, nothing was said after it, and all that follows it is what happened
      since. */
  lemma {:induction false} SaidLastAt<V>(events: seq<Event>, says: Event -> Option<V>) returns (i: nat)
    ensures i <= |events| && NothingSaid(events, says, i) && Since(events, says) == events[i..]
    ensures if i == 0 then LastSaid(events, says).None?
            else says(events[i - 1]).Some? && LastSaid(events, says) == says(events[i - 1])
  {
    if events == [] {
      i := 0;
    } else {
      var n := |events| - 1;
      if says(events[n]).Some? {
        i := n + 1;
      } else {
        i := SaidLastAt(events[..n], says);
        assert events[i..] == events[..n][i..] + [events[n]];
        forall j | i <= j < |events| ensures says(events[j]).None? {
          assert j < n ==> events[j] == events[..n][j];
        }
      }
    }
  }

  // ------------------------------------------------------------------------ jobs

  function AskedFor(id: JobId): Event -> Option<Job> {
    (e: Event) => if e.what.JobRequested? && e.what.job.id == id then Some(e.what.job) else None
  }

  /** How long it is said to take: as asked for, or as it took. */
  function DurationSaid(id: JobId): Event -> Option<positive> {
    (e: Event) =>
      match e.what
      case JobRequested(job) => if job.id == id then Some(job.duration) else None
      case JobCompleted(job, actual) => if job == id then Some(actual) else None
      case _ => None
  }

  /** Where it stands. A draft that is asked for is provisional. */
  function CommitmentSaid(id: JobId): Event -> Option<Commitment> {
    (e: Event) =>
      match e.what
      case JobRequested(job) =>
        if job.id != id then None else if job.commitment.Draft? then Some(Provisional) else Some(job.commitment)
      case JobConfirmed(job, _, _) => if job == id then Some(Confirmed) else None
      case CustomerRescheduled(job, _) => if job == id then Some(Provisional) else None
      case JobDispatched(job) => if job == id then Some(Dispatched) else None
      case JobStarted(job) => if job == id then Some(Dispatched) else None
      case JobCompleted(job, _) => if job == id then Some(Completed) else None
      case JobCancelled(job) => if job == id then Some(Cancelled) else None
      case _ => None
  }

  /** When it may be done and what the promise is worth: a confirmation leaves one window, and a customer who moves
      it is owed nothing. */
  function TermsSaid(id: JobId): Event -> Option<(seq<Window>, int)> {
    (e: Event) =>
      match e.what
      case JobRequested(job) => if job.id == id then Some((job.windows, job.commitmentCost)) else None
      case JobConfirmed(job, window, cost) => if job == id then Some(([window], cost)) else None
      case CustomerRescheduled(job, windows) => if job == id then Some((windows, 0)) else None
      case _ => None
  }

  function Overrun(e: Event, id: JobId): nat {
    if e.what.JobOverran? && e.what.jobId == id then e.what.extraMinutes else 0
  }

  function Overruns(events: seq<Event>, id: JobId): nat {
    if events == [] then 0 else Overruns(events[..|events| - 1], id) + Overrun(events[|events| - 1], id)
  }

  function Deferrals(events: seq<Event>, id: JobId): nat {
    if events == [] then 0 else Deferrals(events[..|events| - 1], id) + Deferral(events[|events| - 1], id)
  }

  function Deferral(e: Event, id: JobId): nat { if e.what.JobDeferred? && e.what.jobId == id then 1 else 0 }

  predicate TellsCommitment(events: seq<Event>, id: JobId, job: Job) {
    LastSaid(events, CommitmentSaid(id)) == Some(job.commitment)
  }

  predicate TellsTerms(events: seq<Event>, id: JobId, job: Job) {
    LastSaid(events, TermsSaid(id)) == Some((job.windows, job.commitmentCost))
  }

  /** As long as was last asked for or took, and all it overran since. */
  predicate TellsDuration(events: seq<Event>, id: JobId, job: Job) {
    var said := LastSaid(events, DurationSaid(id));
    said.Some? && job.duration == said.value + Overruns(Since(events, DurationSaid(id)), id)
  }

  /** Put off as often as when last asked for, and every time since. */
  predicate TellsDeferrals(events: seq<Event>, id: JobId, job: Job) {
    var asked := LastSaid(events, AskedFor(id));
    asked.Some? && job.deferrals == asked.value.deferrals + Deferrals(Since(events, AskedFor(id)), id)
  }

  /** All else is as it was last asked for. */
  predicate TellsTheRest(events: seq<Event>, id: JobId, job: Job) {
    var asked := LastSaid(events, AskedFor(id));
    && asked.Some?
    && job == asked.value.(commitment := job.commitment, windows := job.windows, duration := job.duration,
                           commitmentCost := job.commitmentCost, deferrals := job.deferrals)
  }

  predicate TellsJob(events: seq<Event>, id: JobId, job: Job) {
    && TellsCommitment(events, id, job) && TellsTerms(events, id, job) && TellsDuration(events, id, job)
    && TellsDeferrals(events, id, job) && TellsTheRest(events, id, job)
  }

  predicate JobFollows(events: seq<Event>, job: Option<Job>, id: JobId) {
    if LastSaid(events, AskedFor(id)).None? then job.None? else job.Some? && TellsJob(events, id, job.value)
  }

  /** What one event makes of one job. */
  function JobAfter(job: Option<Job>, f: Fact, id: JobId): Option<Job> {
    if f.JobRequested? && f.job.id == id then Some(Requested(f.job))
    else if JobFact(f) && !f.JobRequested? && f.jobId == id && job.Some? then Some(NextJob(job.value, f))
    else job
  }

  lemma OneJobAtATime(jobs: map<JobId, Job>, f: Fact, id: JobId)
    requires forall k :: k in jobs ==> jobs[k].id == k
    ensures Get(NextJobs(jobs, f), id) == JobAfter(Get(jobs, id), f, id)
  {
  }

  lemma CommitmentMovesOn(events: seq<Event>, job: Option<Job>, id: JobId)
    requires events != [] && (job.Some? ==> TellsCommitment(events[..|events| - 1], id, job.value))
    ensures var after := JobAfter(job, events[|events| - 1].what, id);
            after.Some? ==> TellsCommitment(events, id, after.value)
  {
  }

  lemma TermsMoveOn(events: seq<Event>, job: Option<Job>, id: JobId)
    requires events != [] && (job.Some? ==> TellsTerms(events[..|events| - 1], id, job.value))
    ensures var after := JobAfter(job, events[|events| - 1].what, id);
            after.Some? ==> TellsTerms(events, id, after.value)
  {
  }

  lemma DurationMovesOn(events: seq<Event>, job: Option<Job>, id: JobId)
    requires events != [] && (job.Some? ==> TellsDuration(events[..|events| - 1], id, job.value))
    ensures var after := JobAfter(job, events[|events| - 1].what, id);
            after.Some? ==> TellsDuration(events, id, after.value)
  {
    var n := |events| - 1;
    var after := JobAfter(job, events[n].what, id);
    OneMoreEvent(events, DurationSaid(id));
    DurationAfter(job, events[n], id);
    OverrunsSnoc(Since(events[..n], DurationSaid(id)), events[n], id);
    if after.Some? && DurationSaid(id)(events[n]).None? {
      assert TellsDuration(events[..n], id, job.value);
    }
  }

  lemma OneMoreEvent<V>(events: seq<Event>, says: Event -> Option<V>)
    requires events != []
    ensures var n := |events| - 1;
            if says(events[n]).Some? then LastSaid(events, says) == says(events[n]) && Since(events, says) == []
            else
              && LastSaid(events, says) == LastSaid(events[..n], says)
              && Since(events, says) == Since(events[..n], says) + [events[n]]
  {
  }

  lemma DurationAfter(job: Option<Job>, e: Event, id: JobId)
    ensures var after, said := JobAfter(job, e.what, id), DurationSaid(id)(e);
            after.Some? ==>
              if said.Some? then after.value.duration == said.value
              else job.Some? && after.value.duration == job.value.duration + Overrun(e, id)
  {
  }

  lemma DeferralsAfter(job: Option<Job>, e: Event, id: JobId)
    ensures var after, asked := JobAfter(job, e.what, id), AskedFor(id)(e);
            after.Some? ==>
              if asked.Some? then after.value.deferrals == asked.value.deferrals
              else job.Some? && after.value.deferrals == job.value.deferrals + Deferral(e, id)
  {
  }

  lemma DeferralsMoveOn(events: seq<Event>, job: Option<Job>, id: JobId)
    requires events != [] && (job.Some? ==> TellsDeferrals(events[..|events| - 1], id, job.value))
    ensures var after := JobAfter(job, events[|events| - 1].what, id);
            after.Some? ==> TellsDeferrals(events, id, after.value)
  {
    var n := |events| - 1;
    var after := JobAfter(job, events[n].what, id);
    OneMoreEvent(events, AskedFor(id));
    DeferralsAfter(job, events[n], id);
    DeferralsSnoc(Since(events[..n], AskedFor(id)), events[n], id);
    if after.Some? && AskedFor(id)(events[n]).None? {
      assert TellsDeferrals(events[..n], id, job.value);
    }
  }

  lemma TheRestMovesOn(events: seq<Event>, job: Option<Job>, id: JobId)
    requires events != [] && (job.Some? ==> TellsTheRest(events[..|events| - 1], id, job.value))
    ensures var after := JobAfter(job, events[|events| - 1].what, id);
            after.Some? ==> TellsTheRest(events, id, after.value)
  {
  }

  lemma OverrunsSnoc(events: seq<Event>, e: Event, id: JobId)
    ensures Overruns(events + [e], id) == Overruns(events, id) + Overrun(e, id)
  {
    assert (events + [e])[..|events|] == events;
  }

  lemma DeferralsSnoc(events: seq<Event>, e: Event, id: JobId)
    ensures Deferrals(events + [e], id) == Deferrals(events, id) + Deferral(e, id)
  {
    assert (events + [e])[..|events|] == events;
  }

  lemma AskedMovesOn(events: seq<Event>, job: Option<Job>, id: JobId)
    requires events != []
    requires job.None? <==> LastSaid(events[..|events| - 1], AskedFor(id)).None?
    ensures JobAfter(job, events[|events| - 1].what, id).None? <==> LastSaid(events, AskedFor(id)).None?
  {
  }

  lemma JobMovesOn(events: seq<Event>, job: Option<Job>, id: JobId)
    requires events != [] && JobFollows(events[..|events| - 1], job, id)
    ensures JobFollows(events, JobAfter(job, events[|events| - 1].what, id), id)
  {
    AskedMovesOn(events, job, id);
    CommitmentMovesOn(events, job, id);
    TermsMoveOn(events, job, id);
    DurationMovesOn(events, job, id);
    DeferralsMoveOn(events, job, id);
    TheRestMovesOn(events, job, id);
  }

  /** A job is on file exactly when it was asked for, and is then what the log last said of it. */
  lemma {:induction false} JobsFollowTheLog(t: Moment, events: seq<Event>, id: JobId)
    ensures JobFollows(events, Get(Replay(Empty(t), events).jobs, id), id)
  {
    if events != [] {
      var n := |events| - 1;
      var before := Replay(Empty(t), events[..n]);
      JobsFollowTheLog(t, events[..n], id);
      FoldLaws.ReplayKeepsFiling(Empty(t), events[..n]);
      OneJobAtATime(before.jobs, events[n].what, id);
      JobMovesOn(events, Get(before.jobs, id), id);
    }
  }

  // ---------------------------------------------------- the roster and everything else

  function Flat<V>(said: Option<Option<V>>): Option<V> { if said.Some? then said.value else None }

  function WorkerSaid(id: WorkerId): Event -> Option<Option<Worker>> {
    (e: Event) =>
      match e.what
      case WorkerRegistered(worker) => if worker.id == id then Some(Some(worker)) else None
      case WorkerRemoved(worker) => if worker == id then Some(None) else None
      case _ => None
  }

  function VanSaid(id: VanId): Event -> Option<Option<Van>> {
    (e: Event) =>
      match e.what
      case VanRegistered(van) => if van.id == id then Some(Some(van)) else None
      case VanRemoved(van) => if van == id then Some(None) else None
      case _ => None
  }

  function DepotSaid(): Event -> Option<Location> {
    (e: Event) => if e.what.DepotMoved? then Some(e.what.location) else None
  }

  /** A van as it was last registered, home at the depot last moved to since. */
  function VanTold(events: seq<Event>, id: VanId): Option<Van> {
    var van := Flat(LastSaid(events, VanSaid(id)));
    var depot := LastSaid(Since(events, VanSaid(id)), DepotSaid());
    if van.Some? && depot.Some? then Some(van.value.(homeDepot := depot.value)) else van
  }

  function RateSaid(item: string): Event -> Option<real> {
    (e: Event) => if e.what.RateCardChanged? then Get(e.what.entries, item) else None
  }

  function AskSaid(id: string): Event -> Option<Option<CrewAsk>> {
    (e: Event) =>
      match e.what
      case CrewAskOpened(ask) => if ask.askId == id then Some(Some(ask)) else None
      case CrewAskClosed(ask) => if ask == id then Some(None) else None
      case _ => None
  }

  function CommitSaid(): Event -> Option<PlanId> {
    (e: Event) => if e.what.PlanCommitted? then Some(e.what.planId) else None
  }

  /** The delays, in the order they were learned. */
  function DelaysIn(events: seq<Event>): seq<TrafficOverride> {
    if events == [] then []
    else (if events[0].what.TrafficDelay? then [events[0].what.delay] else []) + DelaysIn(events[1..])
  }

  lemma {:induction false} DelaysSnoc(events: seq<Event>, e: Event)
    ensures DelaysIn(events + [e]) == DelaysIn(events) + if e.what.TrafficDelay? then [e.what.delay] else []
  {
    if events == [] {
      assert events + [e] == [e] && [e][1..] == [];
    } else {
      assert (events + [e])[1..] == events[1..] + [e];
      DelaysSnoc(events[1..], e);
    }
  }

  /** Whoever was registered and not removed since is on the roster, as last registered. */
  lemma {:induction false} RosterFollowsTheLog(t: Moment, events: seq<Event>, id: string)
    ensures Get(Replay(Empty(t), events).workers, id) == Flat(LastSaid(events, WorkerSaid(id)))
    ensures Get(Replay(Empty(t), events).vans, id) == VanTold(events, id)
  {
    if events != [] {
      var n := |events| - 1;
      var before := Replay(Empty(t), events[..n]);
      RosterFollowsTheLog(t, events[..n], id);
      OneMoreEvent(events, WorkerSaid(id));
      OneVanAtATime(before.vans, events[n].what, id);
      VanMovesOn(events, id);
    }
  }

  /** What one event makes of one van. */
  function VanAfter(van: Option<Van>, f: Fact, id: VanId): Option<Van> {
    match f
    case VanRegistered(registered) => if registered.id == id then Some(registered) else van
    case VanRemoved(removed) => if removed == id then None else van
    case DepotMoved(depot) => if van.Some? then Some(van.value.(homeDepot := depot)) else None
    case _ => van
  }

  lemma OneVanAtATime(vans: map<VanId, Van>, f: Fact, id: VanId)
    ensures Get(NextVans(vans, f), id) == VanAfter(Get(vans, id), f, id)
  {
  }

  lemma VanMovesOn(events: seq<Event>, id: VanId)
    requires events != []
    ensures VanTold(events, id) == VanAfter(VanTold(events[..|events| - 1], id), events[|events| - 1].what, id)
  {
    var n := |events| - 1;
    var since := Since(events[..n], VanSaid(id));
    OneMoreEvent(events, VanSaid(id));
    if VanSaid(id)(events[n]).None? {
      assert (since + [events[n]])[..|since|] == since;
      OneMoreEvent(since + [events[n]], DepotSaid());
    }
  }

  /** Each price is the one last set, and the plan in force the one last committed. */
  lemma {:induction false} PricesFollowTheLog(t: Moment, events: seq<Event>, item: string)
    ensures Get(Replay(Empty(t), events).rateCard, item) == LastSaid(events, RateSaid(item))
    ensures Replay(Empty(t), events).committedPlan == LastSaid(events, CommitSaid())
  {
    if events != [] {
      PricesFollowTheLog(t, events[..|events| - 1], item);
      OneMoreEvent(events, RateSaid(item));
      OneMoreEvent(events, CommitSaid());
    }
  }

  /** An ask is on the board as last opened, unless closed since. */
  lemma {:induction false} AsksFollowTheLog(t: Moment, events: seq<Event>, id: string)
    ensures Get(Replay(Empty(t), events).crewAsks, id) == Flat(LastSaid(events, AskSaid(id)))
  {
    if events != [] {
      AsksFollowTheLog(t, events[..|events| - 1], id);
      OneMoreEvent(events, AskSaid(id));
    }
  }

  /** Every delay stays, in the order learned. */
  lemma {:induction false} DelaysFollowTheLog(t: Moment, events: seq<Event>)
    ensures Replay(Empty(t), events).trafficOverrides == DelaysIn(events)
  {
    if events != [] {
      var n := |events| - 1;
      DelaysFollowTheLog(t, events[..n]);
      DelaysSnoc(events[..n], events[n]);
      assert events == events[..n] + [events[n]];
    }
  }

  // -------------------------------------------------------------- the folded world

  /** Every record of the folded world is what the events known at the moment last said of it. */
  lemma TheWorldFollowsTheLog(events: seq<Event>, asOf: Option<Moment>)
    ensures var known, w := Known(events, asOf), Fold(events, asOf);
            && w.asOf == ResolvedAsOf(known, asOf) && w.appliedEvents == |known|
            && (forall id :: JobFollows(known, Get(w.jobs, id), id))
            && (forall id :: Get(w.workers, id) == Flat(LastSaid(known, WorkerSaid(id))))
            && (forall id :: Get(w.vans, id) == VanTold(known, id))
            && (forall item :: Get(w.rateCard, item) == LastSaid(known, RateSaid(item)))
            && (forall id :: Get(w.crewAsks, id) == Flat(LastSaid(known, AskSaid(id))))
            && w.trafficOverrides == DelaysIn(known) && w.committedPlan == LastSaid(known, CommitSaid())
  {
    var known := Known(events, asOf);
    var t := ResolvedAsOf(known, asOf);
    FoldLaws.ReplayKeepsTheClock(Empty(t), known, t, 0);
    DelaysFollowTheLog(t, known);
    PricesFollowTheLog(t, known, "");
    forall id ensures JobFollows(known, Get(Fold(events, asOf).jobs, id), id) {
      JobsFollowTheLog(t, known, id);
    }
    forall id: string
      ensures Get(Fold(events, asOf).workers, id) == Flat(LastSaid(known, WorkerSaid(id)))
      ensures Get(Fold(events, asOf).vans, id) == VanTold(known, id)
      ensures Get(Fold(events, asOf).rateCard, id) == LastSaid(known, RateSaid(id))
      ensures Get(Fold(events, asOf).crewAsks, id) == Flat(LastSaid(known, AskSaid(id)))
    {
      RosterFollowsTheLog(t, known, id);
      PricesFollowTheLog(t, known, id);
      AsksFollowTheLog(t, known, id);
    }
  }

  /** A job is active exactly when the last word on it is neither that it is done nor that it is cancelled. */
  lemma ActiveFollowsTheLog(events: seq<Event>, asOf: Option<Moment>, id: JobId)
    ensures var known, w := Known(events, asOf), Fold(events, asOf);
            var last := LastSaid(known, CommitmentSaid(id));
            id in w.jobs && IsActive(w.jobs[id]) <==>
            LastSaid(known, AskedFor(id)).Some? && last != Some(Completed) && last != Some(Cancelled)
  {
    TheWorldFollowsTheLog(events, asOf);
    assert JobFollows(Known(events, asOf), Get(Fold(events, asOf).jobs, id), id);
  }

  /** Work is locked exactly when the last word on it is that it is under way or done. */
  lemma LockedFollowsTheLog(events: seq<Event>, asOf: Option<Moment>, id: JobId)
    ensures var last := LastSaid(Known(events, asOf), CommitmentSaid(id));
            I.IsLocked(Fold(events, asOf), id) <==>
            LastSaid(Known(events, asOf), AskedFor(id)).Some? && (last == Some(Dispatched) || last == Some(Completed))
  {
    TheWorldFollowsTheLog(events, asOf);
    assert JobFollows(Known(events, asOf), Get(Fold(events, asOf).jobs, id), id);
  }

  /** The moment a world is of is the one asked for, else that of the last thing learned. */
  lemma TheClockIsTheLastLearned(events: seq<Event>, asOf: Option<Moment>)
    ensures asOf.Some? ==> Fold(events, asOf).asOf == asOf.value
    ensures asOf.None? && events != [] ==>
              && (exists e :: e in events && e.recordedAt == Fold(events, asOf).asOf)
              && forall e :: e in events ==> e.recordedAt <= Fold(events, asOf).asOf
  {
    TheWorldFollowsTheLog(events, asOf);
    if asOf.None? && events != [] {
      var known := Known(events, None);
      EventLeIsPreorder();
      SortKeeps(events, EventLe);
      SortSorts(events, EventLe);
      NothingLeftOut(Sort(events, EventLe));
      assert known == Sort(events, EventLe);
      var last := known[|known| - 1];
      assert last in multiset(known) && last in multiset(events);
      forall e | e in events ensures e.recordedAt <= last.recordedAt {
        assert e in multiset(events) && e in multiset(known);
        var i :| 0 <= i < |known| && known[i] == e;
        assert i < |known| - 1 ==> EventLe(known[i], last);
      }
    }
  }

  lemma {:induction false} NothingLeftOut(events: seq<Event>)
    ensures RecordedBy(events, None) == events
  {
    if events != [] {
      NothingLeftOut(events[..|events| - 1]);
      assert events == events[..|events| - 1] + [events[|events| - 1]];
    }
  }
}
