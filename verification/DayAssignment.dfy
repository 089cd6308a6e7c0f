/** Stage A of the horizon: a day for each job, within what each day can take (scheduler/horizon.py). */
module DayAssignment {
  import opened Collections
  import opened Domain
  import opened DayPlanner
  import opened FreeInterval
  import PlanDay

  /** Crew-minutes a day is believed to have, overall and of each certification, and the people behind them. */
  datatype Capacity = Capacity(total: nat, byCert: map<Certification, nat>, workers: nat)

  /** What later rounds learned: how much a day that spilled really absorbed. */
  type Overrides = map<Day, nat>

  const NO_OVERRIDE: nat := 1_000_000_000

  function Capped(capacity: nat, overrides: Overrides, d: Day): nat {
    if overrides == map[] then capacity else Min(capacity, GetOr(overrides, d, NO_OVERRIDE))
  }

  function Effective(base: Capacity, overrides: Overrides, d: Day): Capacity {
    Capacity(Capped(base.total, overrides, d), map c | c in base.byCert :: Capped(base.byCert[c], overrides, d),
             base.workers)
  }

  /** Within what was learned of the day, if anything was learned of any. */
  predicate WithinLearned(overrides: Overrides, d: Day, n: nat) {
    overrides != map[] ==> n <= if d in overrides then overrides[d] else 1_000_000_000
  }

  /** So much work fits a day, overall or of one certification, exactly when it fits both what the day has of it and
      what was learned of the day. */
  lemma FitsBothIff(base: Capacity, overrides: Overrides, d: Day, n: nat)
    ensures n <= Effective(base, overrides, d).total <==> n <= base.total && WithinLearned(overrides, d, n)
    ensures forall c: Certification ::
              n <= GetOr(Effective(base, overrides, d).byCert, c, 0) <==>
              n <= GetOr(base.byCert, c, 0) && WithinLearned(overrides, d, n)
  {
    forall c: Certification
      ensures n <= GetOr(Effective(base, overrides, d).byCert, c, 0) <==>
              n <= GetOr(base.byCert, c, 0) && WithinLearned(overrides, d, n)
    {
      assert c in Effective(base, overrides, d).byCert <==> c in base.byCert;
    }
  }

  // ---------------------------------------------------------------- day capacity

  /** How late this person may be kept that day: the rostered end, or a later hour they agreed to. */
  function ReachEnd(world: World, worker: Worker, d: Day, spanEnd: int): (r: int)
    ensures spanEnd <= r
  {
    var extension := Get(world.shiftExtensions, (worker.id, d));
    var minutes := if extension.Some? then ClampToDay(extension.value, DayStart(d)) else None;
    if minutes.None? then spanEnd else Max(spanEnd, minutes.value)
  }

  /** The hour stage A counts on is one the day planner will keep the person till, and the very one where no overtime
      is allowed them. */
  lemma StagesAgreeOnReach(world: World, p: Problem, i: nat)
    requires Sized(p) && i < |p.workers| && p.overtime >= 0
    requires p.extension[i] == Get(world.shiftExtensions, (p.workers[i].id, p.onDate))
    ensures var reach := ReachEnd(world, p.workers[i], p.onDate, p.span[i].1);
            && p.span[i].1 <= reach <= p.span[i].1 + Allowance(p, i)
            && (p.overtime == 0 || !p.workers[i].overtimeEligible ==> reach == p.span[i].1 + Allowance(p, i))
  {
  }

  /** `share` is the plannable part of a worker's longest free stretch within reach, none if no minute is free. */
  ghost predicate IsShare(world: World, worker: Worker, d: Day, utilization: real, share: Option<nat>) {
    var hours := HoursFor(worker, Weekday(d));
    if hours.None? then share.None?
    else
      exists free :: IsLargestFree(WorkerOutages(world, worker.id), DayStart(d),
                                   (hours.value.start, ReachEnd(world, worker, d, hours.value.end)), free)
                     && share == if free.None? then None else Some(Plannable(free.value, utilization))
  }

  function Plannable(free: (int, int), utilization: real): int { ((free.1 - free.0) as real * utilization).Floor }

  type Shares = map<WorkerId, Option<nat>>

  /** The shares of the listed workers, of all or of those who hold one certification. */
  function SumShares(world: World, shares: Shares, ids: seq<WorkerId>, cert: Option<Certification>): nat {
    if ids == [] then 0
    else
      var id := ids[|ids| - 1];
      SumShares(world, shares, ids[..|ids| - 1], cert) +
      if id in shares && id in world.workers && (cert.None? || cert.value in world.workers[id].certifications)
      then MinutesOf(shares[id]) else 0
  }

  function MinutesOf(share: Option<nat>): nat { if share.Some? then share.value else 0 }

  /** How many of the listed workers have a share. */
  function CountShares(shares: Shares, ids: seq<WorkerId>): nat {
    if ids == [] then 0
    else
      var id := ids[|ids| - 1];
      CountShares(shares, ids[..|ids| - 1]) + if id in shares && shares[id].Some? then 1 else 0
  }

  lemma {:induction false} HoldersHaveNoMoreThanAll(
    world: World, shares: Shares, ids: seq<WorkerId>, cert: Certification)
    ensures SumShares(world, shares, ids, Some(cert)) <= SumShares(world, shares, ids, None)
    decreases |ids|
  {
    if ids != [] {
      HoldersHaveNoMoreThanAll(world, shares, ids[..|ids| - 1], cert);
    }
  }

  /** The minutes of the workers who have a share, of all or of those who hold the certification. */
  function WorkerMinutes(
    world: World, shares: Shares, ids: set<WorkerId>, cert: Option<Certification>): set<(WorkerId, int)>
  {
    set id, minute | id in ids && id in shares && shares[id].Some? && 0 <= minute < shares[id].value
      && id in world.workers && (cert.Some? ==> cert.value in world.workers[id].certifications) :: (id, minute)
  }

  lemma {:induction false} SharesAreMinutes(
    world: World, shares: Shares, ids: seq<WorkerId>, cert: Option<Certification>)
    requires Distinct(ids)
    ensures SumShares(world, shares, ids, cert) == |WorkerMinutes(world, shares, SetOf(ids), cert)|
    decreases |ids|
  {
    if ids == [] {
      assert WorkerMinutes(world, shares, SetOf(ids), cert) == {};
    } else {
      var n := |ids| - 1;
      SharesAreMinutes(world, shares, ids[..n], cert);
      OneMoreWorker(world, shares, SetOf(ids[..n]), ids[n], cert);
      assert SetOf(ids) == SetOf(ids[..n]) + {ids[n]};
    }
  }

  lemma OneMoreWorker(
    world: World, shares: Shares, ids: set<WorkerId>, id: WorkerId, cert: Option<Certification>)
    requires id !in ids
    ensures |WorkerMinutes(world, shares, ids + {id}, cert)| ==
            |WorkerMinutes(world, shares, ids, cert)| +
            if id in shares && id in world.workers
               && (cert.None? || cert.value in world.workers[id].certifications) then MinutesOf(shares[id]) else 0
  {
    var rest, all := WorkerMinutes(world, shares, ids, cert), WorkerMinutes(world, shares, ids + {id}, cert);
    if id in shares && id in world.workers && shares[id].Some?
      && (cert.None? || cert.value in world.workers[id].certifications)
    {
      TaggedSize(id, shares[id].value);
      assert all == rest + Tagged(id, shares[id].value);
      DisjointSize(rest, Tagged(id, shares[id].value));
    } else {
      assert all == rest;
    }
  }

  lemma {:induction false} CountIsWhoHasShares(shares: Shares, ids: seq<WorkerId>)
    requires Distinct(ids)
    ensures CountShares(shares, ids) == |WithShares(shares, SetOf(ids))|
    decreases |ids|
  {
    if ids == [] {
      assert WithShares(shares, SetOf(ids)) == {};
    } else {
      var n := |ids| - 1;
      CountIsWhoHasShares(shares, ids[..n]);
      var rest := WithShares(shares, SetOf(ids[..n]));
      assert ids[n] !in rest && SetOf(ids) == SetOf(ids[..n]) + {ids[n]};
      assert WithShares(shares, SetOf(ids)) ==
             if ids[n] in shares && shares[ids[n]].Some? then rest + {ids[n]} else rest;
    }
  }

  function WithShares(shares: Shares, ids: set<WorkerId>): set<WorkerId> {
    set id | id in ids && id in shares && shares[id].Some?
  }

  /** Never more than the part of the stretch that may be planned, and less by less than a minute. */
  lemma PlannableIsMost(free: (int, int), utilization: real)
    ensures var part := (free.1 - free.0) as real * utilization;
            Plannable(free, utilization) as real <= part < Plannable(free, utilization) as real + 1.0
  {
  }

  method ShareOf(world: World, worker: Worker, d: Day, utilization: real) returns (share: Option<nat>)
    requires utilization >= 0.0
    ensures IsShare(world, worker, d, utilization, share)
  {
    var hours := HoursFor(worker, Weekday(d));
    if hours.None? {
      return None;
    }
    var reach := ReachEnd(world, worker, d, hours.value.end);
    var free := LargestFreeInterval(WorkerOutages(world, worker.id), DayStart(d), (hours.value.start, reach));
    if free.None? {
      return None;
    }
    assert Free(WorkerOutages(world, worker.id), DayStart(d), (hours.value.start, reach), free.value.0, free.value.1);
    assert (free.value.1 - free.value.0) as real * utilization >= 0.0;
    share := Some(Plannable(free.value, utilization));
  }

  /** A day's crew-minutes: each worker's share counted once overall, and once under each certification held. */
  method DayCapacity(world: World, d: Day, utilization: real)
    returns (capacity: Capacity, ghost shares: Shares, ghost ids: seq<WorkerId>)
    requires WellKeyed(world) && utilization >= 0.0
    ensures Distinct(ids) && SetOf(ids) == world.workers.Keys && EachShare(world, d, utilization, shares, ids)
    ensures Tallied(world, shares, ids, capacity.total, capacity.byCert) && capacity.workers == CountShares(shares, ids)
    ensures capacity.total == |WorkerMinutes(world, shares, world.workers.Keys, None)|
    ensures forall c :: GetOr(capacity.byCert, c, 0) == |WorkerMinutes(world, shares, world.workers.Keys, Some(c))|
    ensures capacity.workers == |WithShares(shares, world.workers.Keys)|
    ensures forall c :: c in capacity.byCert ==> capacity.byCert[c] <= capacity.total
  {
    var order := SortedKeys(world.workers.Keys);
    ids, shares := order, map[];
    var total: nat, byCert: map<Certification, nat>, count: nat := 0, map[], 0;
    for i := 0 to |order|
      invariant EachShare(world, d, utilization, shares, order[..i])
      invariant Tallied(world, shares, order[..i], total, byCert)
      invariant count == CountShares(shares, order[..i])
    {
      assert order[i] in order;
      var worker := world.workers[order[i]];
      var share := ShareOf(world, worker, d, utilization);
      var minutes, certs := MinutesOf(share), worker.certifications;
      TallyNext(world, shares, order, i, share, total, byCert);
      CountNext(shares, order, i, share);
      ShareNext(world, d, utilization, shares, order, i, share);
      shares := shares[order[i] := share];
      total := total + minutes;
      byCert := AddFor(byCert, certs, minutes);
      count := count + if share.Some? then 1 else 0;
    }
    assert order[..|order|] == order;
    assert SetOf(order) == world.workers.Keys;
    capacity := Capacity(total, byCert, count);
    CountIsWhoHasShares(shares, order);
    forall cert ensures SumShares(world, shares, order, cert)
                     == |WorkerMinutes(world, shares, world.workers.Keys, cert)|
    {
      SharesAreMinutes(world, shares, order, cert);
    }
    forall c | c in byCert ensures byCert[c] <= total {
      CertifiedWithinTotal(world, shares, order, capacity, c);
    }
  }

  /** No certification is ever believed to have more crew-minutes than the day. */
  lemma CertifiedWithinTotal(
    world: World, shares: Shares, ids: seq<WorkerId>, capacity: Capacity, cert: Certification)
    requires Tallied(world, shares, ids, capacity.total, capacity.byCert)
    ensures GetOr(capacity.byCert, cert, 0) <= capacity.total
  {
    HoldersHaveNoMoreThanAll(world, shares, ids, cert);
  }

  ghost predicate Tallied(
    world: World, shares: Shares, ids: seq<WorkerId>, total: nat, byCert: map<Certification, nat>)
  {
    && total == SumShares(world, shares, ids, None)
    && forall c :: GetOr(byCert, c, 0) == SumShares(world, shares, ids, Some(c))
  }

  ghost predicate EachShare(world: World, d: Day, utilization: real, shares: Shares, ids: seq<WorkerId>) {
    && shares.Keys == SetOf(ids)
    && forall id :: id in shares ==>
        id in world.workers && IsShare(world, world.workers[id], d, utilization, shares[id])
  }

  lemma ShareNext(
    world: World, d: Day, utilization: real, shares: Shares, ids: seq<WorkerId>, i: nat, share: Option<nat>)
    requires i < |ids| && ids[i] in world.workers && EachShare(world, d, utilization, shares, ids[..i])
    requires IsShare(world, world.workers[ids[i]], d, utilization, share)
    ensures EachShare(world, d, utilization, shares[ids[i] := share], ids[..i + 1])
  {
    assert SetOf(ids[..i + 1]) == SetOf(ids[..i]) + {ids[i]};
  }

  function AddFor(byCert: map<Certification, nat>, certs: set<Certification>, minutes: nat): map<Certification, nat> {
    map c | c in byCert.Keys + certs :: GetOr(byCert, c, 0) + if c in certs then minutes else 0
  }

  lemma TallyNext(
    world: World, shares: Shares, ids: seq<WorkerId>, i: nat, share: Option<nat>, total: nat,
    byCert: map<Certification, nat>)
    requires Distinct(ids) && i < |ids| && ids[i] in world.workers && shares.Keys == SetOf(ids[..i])
    requires Tallied(world, shares, ids[..i], total, byCert)
    ensures Tallied(world, shares[ids[i] := share], ids[..i + 1], total + MinutesOf(share),
                    AddFor(byCert, world.workers[ids[i]].certifications, MinutesOf(share)))
  {
    SharesStay(world, shares, ids, i, share);
    assert ids[..i + 1][..i] == ids[..i];
  }

  lemma SharesStay(world: World, shares: Shares, ids: seq<WorkerId>, i: nat, share: Option<nat>)
    requires Distinct(ids) && i < |ids| && shares.Keys == SetOf(ids[..i])
    ensures forall cert :: SumShares(world, shares[ids[i] := share], ids[..i], cert)
              == SumShares(world, shares, ids[..i], cert)
  {
    forall cert
      ensures SumShares(world, shares[ids[i] := share], ids[..i], cert) == SumShares(world, shares, ids[..i], cert)
    {
      assert ids[i] !in ids[..i];
      OtherSharesStay(world, shares, ids[..i], ids[i], share, cert);
    }
  }

  lemma {:induction false} OtherSharesStay(
    world: World, shares: Shares, ids: seq<WorkerId>, id: WorkerId, share: Option<nat>, cert: Option<Certification>)
    requires id !in ids
    ensures SumShares(world, shares[id := share], ids, cert) == SumShares(world, shares, ids, cert)
    decreases |ids|
  {
    if ids != [] {
      OtherSharesStay(world, shares, ids[..|ids| - 1], id, share, cert);
    }
  }

  lemma CountNext(shares: Shares, ids: seq<WorkerId>, i: nat, share: Option<nat>)
    requires Distinct(ids) && i < |ids|
    ensures CountShares(shares[ids[i] := share], ids[..i + 1])
         == CountShares(shares, ids[..i]) + if share.Some? then 1 else 0
  {
    assert ids[i] !in ids[..i];
    OtherCountStays(shares, ids[..i], ids[i], share);
    assert ids[..i + 1][..i] == ids[..i];
  }

  lemma {:induction false} OtherCountStays(shares: Shares, ids: seq<WorkerId>, id: WorkerId, share: Option<nat>)
    requires id !in ids
    ensures CountShares(shares[id := share], ids) == CountShares(shares, ids)
    decreases |ids|
  {
    if ids != [] {
      OtherCountStays(shares, ids[..|ids| - 1], id, share);
    }
  }

  // ------------------------------------------------------------ days allowed

  ghost predicate CanWork(world: World, d: Day, id: WorkerId) {
    id in world.workers && exists span :: Usable(world, d, world.workers[id], span)
  }

  ghost function CertifiedOn(world: World, job: Job, d: Day): set<WorkerId> {
    set id | id in world.workers && CanWork(world, d, id)
             && job.requiredCertifications <= world.workers[id].certifications
  }

  /** Enough people who hold every certification the job needs are at work. */
  ghost predicate Staffed(world: World, job: Job, d: Day) { job.crewSize <= |CertifiedOn(world, job, d)| }

  predicate InSeason(job: Job, d: Day) { PartsExistBy(job, d) && WindowsTouchDay(job, DayStart(d)) }

  /** The days of the horizon a job may go to. */
  ghost function AllowedDays(world: World, job: Job, horizon: seq<Day>): (r: seq<Day>)
    ensures forall d :: d in r <==> d in horizon && InSeason(job, d) && Staffed(world, job, d)
    ensures Distinct(horizon) ==> Distinct(r)
  {
    if horizon == [] then []
    else
      var d := horizon[|horizon| - 1];
      var rest := AllowedDays(world, job, horizon[..|horizon| - 1]);
      if InSeason(job, d) && Staffed(world, job, d) then rest + [d] else rest
  }

  function IdsWith(workers: seq<Worker>, needed: set<Certification>): (r: seq<WorkerId>)
    ensures forall id :: id in r ==> id in IdsOf(workers)
  {
    if workers == [] then []
    else
      var rest, w := IdsWith(workers[..|workers| - 1], needed), workers[|workers| - 1];
      if needed <= w.certifications then rest + [w.id] else rest
  }

  predicate HolderAmong(workers: seq<Worker>, needed: set<Certification>, id: WorkerId) {
    exists i :: 0 <= i < |workers| && workers[i].id == id && needed <= workers[i].certifications
  }

  lemma HolderSnoc(workers: seq<Worker>, needed: set<Certification>, id: WorkerId)
    requires workers != []
    ensures var n := |workers| - 1;
            HolderAmong(workers, needed, id) <==>
            HolderAmong(workers[..n], needed, id) || (workers[n].id == id && needed <= workers[n].certifications)
  {
    var n := |workers| - 1;
    if HolderAmong(workers[..n], needed, id) {
      var i :| 0 <= i < n && workers[..n][i].id == id && needed <= workers[..n][i].certifications;
      assert workers[i].id == id;
    }
    if HolderAmong(workers, needed, id) && workers[n].id != id {
      var i :| 0 <= i < |workers| && workers[i].id == id && needed <= workers[i].certifications;
      assert workers[..n][i].id == id;
    }
  }

  lemma {:induction false} IdsWithFacts(workers: seq<Worker>, needed: set<Certification>)
    requires Distinct(IdsOf(workers))
    ensures Distinct(IdsWith(workers, needed))
    ensures forall id :: id in IdsWith(workers, needed) <==> HolderAmong(workers, needed, id)
    decreases |workers|
  {
    if workers != [] {
      var n := |workers| - 1;
      assert IdsOf(workers[..n]) == IdsOf(workers)[..n];
      IdsWithFacts(workers[..n], needed);
      assert workers[n].id !in IdsWith(workers[..n], needed) by {
        assert IdsOf(workers)[n] !in IdsOf(workers)[..n];
      }
      forall id ensures id in IdsWith(workers, needed) <==> HolderAmong(workers, needed, id) {
        HolderSnoc(workers, needed, id);
      }
    }
  }

  method IsStaffed(world: World, job: Job, d: Day) returns (enough: bool)
    requires WellKeyed(world)
    ensures enough <==> Staffed(world, job, d)
  {
    var available, span, extension := PlanDay.RosteredWorkers(world, d);
    var certified := IdsWith(available, job.requiredCertifications);
    IdsWithFacts(available, job.requiredCertifications);
    forall id ensures id in SetOf(certified) <==> id in CertifiedOn(world, job, d) {
      if HolderAmong(available, job.requiredCertifications, id) {
        var i :| 0 <= i < |available| && available[i].id == id
          && job.requiredCertifications <= available[i].certifications;
        assert Usable(world, d, world.workers[id], span[i]);
      }
      if id in CertifiedOn(world, job, d) {
        assert id in IdsOf(available);
        var i :| 0 <= i < |available| && IdsOf(available)[i] == id;
        assert HolderAmong(available, job.requiredCertifications, id);
      }
    }
    assert SetOf(certified) == CertifiedOn(world, job, d);
    DistinctSize(certified);
    enough := job.crewSize <= |certified|;
  }

  method FeasibleDays(world: World, job: Job, horizon: seq<Day>) returns (days: seq<Day>)
    requires WellKeyed(world)
    ensures days == AllowedDays(world, job, horizon)
  {
    days := [];
    for i := 0 to |horizon|
      invariant days == AllowedDays(world, job, horizon[..i])
    {
      var d := horizon[i];
      assert horizon[..i + 1][..i] == horizon[..i];
      MaterialDayIff(job, d);
      if EarliestMaterialDay(job) <= d && WindowsTouchDay(job, DayStart(d)) {
        var staffed := IsStaffed(world, job, d);
        if staffed {
          days := days + [d];
        }
      }
    }
    assert horizon[..|horizon|] == horizon;
  }

  /** No job is sent to a day that `plan_day` would turn it away from at the door. */
  lemma AllowedMeansCandidate(world: World, job: Job, horizon: seq<Day>, d: Day)
    requires d in AllowedDays(world, job, horizon)
    requires job.id in world.jobs && world.jobs[job.id] == job && IsActive(job)
    ensures IsCandidate(world, d, job.id)
  {
  }

  // ------------------------------------------------------------- the solver's part

  /** A solution of the day model: which days each job is put on, and whether it is placed at all. */
  datatype Choice = Choice(onDay: (JobId, Day) -> bool, placed: JobId -> bool)

  function Load(job: Job): nat { job.duration * job.crewSize }

  predicate Needs(job: Job, cert: Option<Certification>) {
    cert.None? || cert.value in job.requiredCertifications
  }

  /** The solver put the job on the day, and it needs the certification, if one is asked about. */
  ghost predicate GoesOn(
    world: World, horizon: seq<Day>, choice: Choice, job: Job, d: Day, cert: Option<Certification>)
  {
    d in AllowedDays(world, job, horizon) && choice.onDay(job.id, d) && Needs(job, cert)
  }

  /** The crew-minutes put on a day, of everything or of the jobs that need one certification. */
  ghost function Demand(
    world: World, horizon: seq<Day>, choice: Choice, jobs: seq<Job>, d: Day, cert: Option<Certification>): nat
  {
    if jobs == [] then 0
    else
      var job := jobs[|jobs| - 1];
      Demand(world, horizon, choice, jobs[..|jobs| - 1], d, cert) +
      if GoesOn(world, horizon, choice, job, d, cert) then Load(job) else 0
  }

  /** As many days as it is placed, which is one or none. */
  ghost predicate OneDay(choice: Choice, id: JobId, days: seq<Day>) {
    && (choice.placed(id) ==> exists k :: 0 <= k < |days| && choice.onDay(id, days[k]))
    && (forall k :: 0 <= k < |days| && choice.onDay(id, days[k]) ==> choice.placed(id))
    && (forall j, k :: 0 <= j < k < |days| ==> !(choice.onDay(id, days[j]) && choice.onDay(id, days[k])))
  }

  /** The capacity constraint of one day. */
  ghost predicate WithinRoom(
    world: World, horizon: seq<Day>, jobs: seq<Job>, base: Capacity, overrides: Overrides, choice: Choice, d: Day)
  {
    && Demand(world, horizon, choice, jobs, d, None) <= Effective(base, overrides, d).total
    && forall c: Certification ::
         Demand(world, horizon, choice, jobs, d, Some(c)) <= GetOr(Effective(base, overrides, d).byCert, c, 0)
  }

  /** The constraints of the day model. */
  ghost predicate ChoiceOk(
    world: World, horizon: seq<Day>, jobs: seq<Job>, base: Day -> Capacity, overrides: Overrides, choice: Choice)
  {
    && (forall i :: 0 <= i < |jobs| ==> OneDay(choice, jobs[i].id, AllowedDays(world, jobs[i], horizon)))
    && (forall d :: d in horizon ==> WithinRoom(world, horizon, jobs, base(d), overrides, choice, d))
  }

  // ---------------------------------------------------------------- reading it back

  datatype Placing = Placing(id: JobId, day: Day)

  function IdsOfJobs(jobs: seq<Job>): (r: seq<JobId>)
    ensures |r| == |jobs| && forall i :: 0 <= i < |r| ==> r[i] == jobs[i].id
  {
    seq(|jobs|, i requires 0 <= i < |jobs| => jobs[i].id)
  }

  function Keys(assignment: seq<Placing>): (r: seq<JobId>)
    ensures |r| == |assignment| && forall i :: 0 <= i < |r| ==> r[i] == assignment[i].id
  {
    seq(|assignment|, i requires 0 <= i < |assignment| => assignment[i].id)
  }

  function FirstOn(choice: Choice, id: JobId, days: seq<Day>): (r: Option<Day>)
    ensures r.Some? ==> r.value in days && choice.onDay(id, r.value)
    ensures r.None? ==> forall d :: d in days ==> !choice.onDay(id, d)
  {
    if days == [] then None
    else if choice.onDay(id, days[0]) then Some(days[0])
    else FirstOn(choice, id, days[1..])
  }

  /** The day the solver's answer gives a job, if any; `None` for no answer. */
  function DayFrom(choice: Option<Choice>, id: JobId, days: seq<Day>): Option<Day> {
    if choice.None? || !choice.value.placed(id) then None else FirstOn(choice.value, id, days)
  }

  ghost function Given(world: World, horizon: seq<Day>, choice: Option<Choice>, job: Job): Option<Day> {
    DayFrom(choice, job.id, AllowedDays(world, job, horizon))
  }

  /** One place per id, as in a dictionary: a job listed again is given the same day again. */
  ghost function Placings(world: World, horizon: seq<Day>, choice: Option<Choice>, jobs: seq<Job>): seq<Placing> {
    if jobs == [] then []
    else
      var job := jobs[|jobs| - 1];
      var rest := Placings(world, horizon, choice, jobs[..|jobs| - 1]);
      var day := Given(world, horizon, choice, job);
      if day.Some? && job.id !in Keys(rest) then rest + [Placing(job.id, day.value)] else rest
  }

  /** Jobs with no day at all. */
  ghost function Homeless(world: World, horizon: seq<Day>, jobs: seq<Job>): seq<JobId> {
    if jobs == [] then []
    else
      var job := jobs[|jobs| - 1];
      var rest := Homeless(world, horizon, jobs[..|jobs| - 1]);
      if AllowedDays(world, job, horizon) == [] then rest + [job.id] else rest
  }

  /** Jobs that had days but were given none. */
  ghost function PassedOver(world: World, horizon: seq<Day>, choice: Option<Choice>, jobs: seq<Job>): seq<JobId> {
    if jobs == [] then []
    else
      var job := jobs[|jobs| - 1];
      var rest := PassedOver(world, horizon, choice, jobs[..|jobs| - 1]);
      if AllowedDays(world, job, horizon) != [] && Given(world, horizon, choice, job).None?
      then rest + [job.id] else rest
  }

  /** A job may be listed more than once, but an id always means the same job. */
  predicate OneRecordEach(jobs: seq<Job>) {
    forall i, j :: 0 <= i < |jobs| && 0 <= j < |jobs| && jobs[i].id == jobs[j].id ==> jobs[i] == jobs[j]
  }

  function Listings(jobs: seq<Job>, x: JobId): nat { multiset(IdsOfJobs(jobs))[x] }

  /** Of the listed jobs some have a place, each one place; every other is reported as often as it is listed. */
  ghost predicate Shared(jobs: seq<Job>, placed: seq<JobId>, unplaced: seq<JobId>) {
    && Distinct(placed)
    && (forall x :: x in placed ==> x in IdsOfJobs(jobs))
    && forall x :: multiset(unplaced)[x] == if x in placed then 0 else Listings(jobs, x)
  }

  lemma ListingsSnoc(jobs: seq<Job>, x: JobId)
    requires jobs != []
    ensures var n := |jobs| - 1; Listings(jobs, x) == Listings(jobs[..n], x) + if jobs[n].id == x then 1 else 0
    ensures var n := |jobs| - 1; x in IdsOfJobs(jobs) <==> x in IdsOfJobs(jobs[..n]) || x == jobs[n].id
  {
    var n := |jobs| - 1;
    assert IdsOfJobs(jobs) == IdsOfJobs(jobs[..n]) + [jobs[n].id];
  }

  /** A job is given its day, or reported, as its own record says, however often it is listed. */
  lemma {:induction false} GivenWhenPlaced(
    world: World, horizon: seq<Day>, choice: Option<Choice>, jobs: seq<Job>, job: Job)
    requires OneRecordEach(jobs) && forall i :: 0 <= i < |jobs| && jobs[i].id == job.id ==> jobs[i] == job
    ensures job.id in Keys(Placings(world, horizon, choice, jobs)) <==>
            job.id in IdsOfJobs(jobs) && Given(world, horizon, choice, job).Some?
    decreases |jobs|
  {
    if jobs != [] {
      var n := |jobs| - 1;
      ListingsSnoc(jobs, job.id);
      GivenWhenPlaced(world, horizon, choice, jobs[..n], job);
      KeysSnoc(Placings(world, horizon, choice, jobs[..n]), jobs[n].id, job.id);
    }
  }

  lemma KeysSnoc(rest: seq<Placing>, id: JobId, x: JobId)
    ensures forall d :: x in Keys(rest + [Placing(id, d)]) <==> x in Keys(rest) || x == id
  {
    forall d ensures x in Keys(rest + [Placing(id, d)]) <==> x in Keys(rest) || x == id {
      assert Keys(rest + [Placing(id, d)]) == Keys(rest) + [id];
    }
  }

  lemma {:induction false} PlacedOnce(world: World, horizon: seq<Day>, choice: Option<Choice>, jobs: seq<Job>)
    ensures Distinct(Keys(Placings(world, horizon, choice, jobs)))
    decreases |jobs|
  {
    if jobs != [] {
      var n := |jobs| - 1;
      PlacedOnce(world, horizon, choice, jobs[..n]);
      var rest, day := Placings(world, horizon, choice, jobs[..n]), Given(world, horizon, choice, jobs[n]);
      if day.Some? && jobs[n].id !in Keys(rest) {
        assert Keys(rest + [Placing(jobs[n].id, day.value)]) == Keys(rest) + [jobs[n].id];
      }
    }
  }

  /** How often a job is reported: as often as it is listed if it has no day or was given none, else never. */
  lemma {:induction false} HomelessAsListed(world: World, horizon: seq<Day>, jobs: seq<Job>, job: Job)
    requires forall i :: 0 <= i < |jobs| && jobs[i].id == job.id ==> jobs[i] == job
    ensures multiset(Homeless(world, horizon, jobs))[job.id]
         == if AllowedDays(world, job, horizon) == [] then Listings(jobs, job.id) else 0
    decreases |jobs|
  {
    if jobs != [] {
      ListingsSnoc(jobs, job.id);
      HomelessAsListed(world, horizon, jobs[..|jobs| - 1], job);
    }
  }

  lemma {:induction false} PassedOverAsListed(
    world: World, horizon: seq<Day>, choice: Option<Choice>, jobs: seq<Job>, job: Job)
    requires forall i :: 0 <= i < |jobs| && jobs[i].id == job.id ==> jobs[i] == job
    ensures multiset(PassedOver(world, horizon, choice, jobs))[job.id]
         == if AllowedDays(world, job, horizon) != [] && Given(world, horizon, choice, job).None?
            then Listings(jobs, job.id) else 0
    decreases |jobs|
  {
    if jobs != [] {
      ListingsSnoc(jobs, job.id);
      PassedOverAsListed(world, horizon, choice, jobs[..|jobs| - 1], job);
    }
  }

  lemma {:induction false} OnlyListedAreReported(
    world: World, horizon: seq<Day>, choice: Option<Choice>, jobs: seq<Job>, x: JobId)
    requires x in Homeless(world, horizon, jobs) || x in PassedOver(world, horizon, choice, jobs)
             || x in Keys(Placings(world, horizon, choice, jobs))
    ensures x in IdsOfJobs(jobs)
    decreases |jobs|
  {
    if jobs != [] {
      var n := |jobs| - 1;
      ListingsSnoc(jobs, x);
      KeysSnoc(Placings(world, horizon, choice, jobs[..n]), jobs[n].id, x);
      if x != jobs[n].id {
        OnlyListedAreReported(world, horizon, choice, jobs[..n], x);
      }
    }
  }

  /** The jobs given a day and those reported are together exactly the jobs listed: a job is given one day,
      or is reported once for every time it is listed. */
  lemma EachJobOnce(world: World, horizon: seq<Day>, choice: Option<Choice>, jobs: seq<Job>)
    requires OneRecordEach(jobs)
    ensures Shared(jobs, Keys(Placings(world, horizon, choice, jobs)),
                   Homeless(world, horizon, jobs) + PassedOver(world, horizon, choice, jobs))
  {
    var placed := Keys(Placings(world, horizon, choice, jobs));
    var homeless, passed := Homeless(world, horizon, jobs), PassedOver(world, horizon, choice, jobs);
    PlacedOnce(world, horizon, choice, jobs);
    forall x | x in placed ensures x in IdsOfJobs(jobs) {
      OnlyListedAreReported(world, horizon, choice, jobs, x);
    }
    forall x ensures multiset(homeless + passed)[x] == if x in placed then 0 else Listings(jobs, x) {
      ReportedAsListed(world, horizon, choice, jobs, x);
    }
  }

  lemma ReportedAsListed(world: World, horizon: seq<Day>, choice: Option<Choice>, jobs: seq<Job>, x: JobId)
    requires OneRecordEach(jobs)
    ensures multiset(Homeless(world, horizon, jobs))[x] + multiset(PassedOver(world, horizon, choice, jobs))[x]
         == if x in Keys(Placings(world, horizon, choice, jobs)) then 0 else Listings(jobs, x)
  {
    if x in IdsOfJobs(jobs) {
      var i :| 0 <= i < |jobs| && jobs[i].id == x;
      HomelessAsListed(world, horizon, jobs, jobs[i]);
      PassedOverAsListed(world, horizon, choice, jobs, jobs[i]);
      GivenWhenPlaced(world, horizon, choice, jobs, jobs[i]);
    } else if x in Homeless(world, horizon, jobs) || x in PassedOver(world, horizon, choice, jobs) {
      OnlyListedAreReported(world, horizon, choice, jobs, x);
    }
  }

  /** A candidate is reported twice exactly when it is listed twice and no day could take it or was given. */
  lemma ReportedTwiceIff(world: World, horizon: seq<Day>, choice: Option<Choice>, jobs: seq<Job>, i: nat)
    requires OneRecordEach(jobs) && i < |jobs|
    ensures var job := jobs[i];
            multiset(Homeless(world, horizon, jobs) + PassedOver(world, horizon, choice, jobs))[job.id] > 1 <==>
            Listings(jobs, job.id) > 1
            && (AllowedDays(world, job, horizon) == [] || Given(world, horizon, choice, job).None?)
  {
    HomelessAsListed(world, horizon, jobs, jobs[i]);
    PassedOverAsListed(world, horizon, choice, jobs, jobs[i]);
  }

  /** Each job's days, and the jobs that have none. */
  method OptionsFor(world: World, jobs: seq<Job>, horizon: seq<Day>)
    returns (allowed: seq<seq<Day>>, homeless: seq<JobId>)
    requires WellKeyed(world)
    ensures |allowed| == |jobs| && forall i :: 0 <= i < |jobs| ==> allowed[i] == AllowedDays(world, jobs[i], horizon)
    ensures homeless == Homeless(world, horizon, jobs)
  {
    allowed, homeless := [], [];
    for i := 0 to |jobs|
      invariant |allowed| == i && forall k :: 0 <= k < i ==> allowed[k] == AllowedDays(world, jobs[k], horizon)
      invariant homeless == Homeless(world, horizon, jobs[..i])
    {
      assert jobs[..i + 1][..i] == jobs[..i];
      var options := FeasibleDays(world, jobs[i], horizon);
      allowed := allowed + [options];
      if options == [] {
        homeless := homeless + [jobs[i].id];
      }
    }
    assert jobs[..|jobs|] == jobs;
  }

  /** The solver's answer, job by job. */
  method ReadBack(world: World, jobs: seq<Job>, horizon: seq<Day>, allowed: seq<seq<Day>>, answer: Option<Choice>)
    returns (assignment: seq<Placing>, passed: seq<JobId>)
    requires |allowed| == |jobs| && forall i :: 0 <= i < |jobs| ==> allowed[i] == AllowedDays(world, jobs[i], horizon)
    ensures assignment == Placings(world, horizon, answer, jobs)
    ensures passed == PassedOver(world, horizon, answer, jobs)
  {
    assignment, passed := [], [];
    for i := 0 to |jobs|
      invariant assignment == Placings(world, horizon, answer, jobs[..i])
      invariant passed == PassedOver(world, horizon, answer, jobs[..i])
    {
      assert jobs[..i + 1][..i] == jobs[..i];
      if allowed[i] == [] {
        continue;
      }
      var day := DayFrom(answer, jobs[i].id, allowed[i]);
      if day.None? {
        passed := passed + [jobs[i].id];
      } else if jobs[i].id !in Keys(assignment) {
        assignment := assignment + [Placing(jobs[i].id, day.value)];
      }
    }
    assert jobs[..|jobs|] == jobs;
  }

  /** With no day for any job the solver's answer would not matter. */
  lemma {:induction false} NoDaysNoPlacings(world: World, jobs: seq<Job>, horizon: seq<Day>, answer: Option<Choice>)
    requires forall i :: 0 <= i < |jobs| ==> AllowedDays(world, jobs[i], horizon) == []
    ensures Placings(world, horizon, answer, jobs) == [] && PassedOver(world, horizon, answer, jobs) == []
    decreases |jobs|
  {
    if jobs != [] {
      NoDaysNoPlacings(world, jobs[..|jobs| - 1], horizon, answer);
    }
  }

  /** Stage A. `choose` is the solver, asked when some job has a day to go to; it may give up. */
  method AssignDays(
    world: World, jobs: seq<Job>, horizon: seq<Day>, overrides: Overrides, round: nat,
    choose: (nat, Overrides) -> Option<Choice>)
    returns (assignment: seq<Placing>, unplaceable: seq<JobId>)
    requires WellKeyed(world) && OneRecordEach(jobs)
    ensures assignment == Placings(world, horizon, choose(round, overrides), jobs)
    ensures unplaceable == Homeless(world, horizon, jobs) + PassedOver(world, horizon, choose(round, overrides), jobs)
    ensures Shared(jobs, Keys(assignment), unplaceable)
  {
    var allowed, homeless := OptionsFor(world, jobs, horizon);
    var answer: Option<Choice> := None;
    if exists i :: 0 <= i < |jobs| && allowed[i] != [] {
      answer := choose(round, overrides);
    } else {
      NoDaysNoPlacings(world, jobs, horizon, choose(round, overrides));
      NoDaysNoPlacings(world, jobs, horizon, None);
    }
    var passed;
    assignment, passed := ReadBack(world, jobs, horizon, allowed, answer);
    unplaceable := homeless + passed;
    EachJobOnce(world, horizon, choose(round, overrides), jobs);
  }

  // ------------------------------------------------------- a day is not overfilled

  /** The ids put on a day, in order. */
  function Todays(assignment: seq<Placing>, d: Day): (r: seq<JobId>)
    ensures forall x :: x in r ==> x in Keys(assignment)
  {
    if assignment == [] then []
    else
      var rest, last := Todays(assignment[..|assignment| - 1], d), assignment[|assignment| - 1];
      assert forall x :: x in Keys(assignment[..|assignment| - 1]) ==> x in Keys(assignment);
      assert Keys(assignment)[|assignment| - 1] == last.id;
      if last.day == d then rest + [last.id] else rest
  }

  lemma {:induction false} TodaysFacts(assignment: seq<Placing>, d: Day)
    requires Distinct(Keys(assignment))
    ensures Distinct(Todays(assignment, d))
    ensures forall x :: x in Todays(assignment, d) <==> Placing(x, d) in assignment
    decreases |assignment|
  {
    if assignment != [] {
      var n := |assignment| - 1;
      assert Keys(assignment[..n]) == Keys(assignment)[..n];
      TodaysFacts(assignment[..n], d);
      var rest := Todays(assignment[..n], d);
      forall i | 0 <= i < |rest| ensures rest[i] != assignment[n].id {
        assert rest[i] in Keys(assignment[..n]);
        var k :| 0 <= k < n && Keys(assignment[..n])[k] == rest[i];
        assert Keys(assignment)[k] != Keys(assignment)[n];
      }
    }
  }

  function LoadOf(world: World, ids: seq<JobId>): nat {
    if ids == [] then 0
    else
      LoadOf(world, ids[..|ids| - 1]) +
      if ids[|ids| - 1] in world.jobs then Load(world.jobs[ids[|ids| - 1]]) else 0
  }

  // --------------------------------------------------------- work, minute by minute

  /** The work of some jobs: one element for each minute of each person it takes. */
  function CrewMinutes(world: World, ids: set<JobId>): set<(JobId, int, int)> {
    set id, minute, person | id in ids && id in world.jobs
      && 0 <= minute < world.jobs[id].duration && 0 <= person < world.jobs[id].crewSize :: (id, minute, person)
  }

  function Block(id: JobId, minutes: int, people: int): set<(JobId, int, int)> {
    set minute, person | 0 <= minute < minutes && 0 <= person < people :: (id, minute, person)
  }

  function Row(id: JobId, minute: int, people: int): set<(JobId, int, int)> {
    set person | 0 <= person < people :: (id, minute, person)
  }

  lemma {:induction false} RowSize(id: JobId, minute: int, people: nat)
    ensures |Row(id, minute, people)| == people
  {
    if people > 0 {
      RowSize(id, minute, people - 1);
      assert (id, minute, people - 1) !in Row(id, minute, people - 1);
      assert Row(id, minute, people) == Row(id, minute, people - 1) + {(id, minute, people - 1)};
    }
  }

  lemma {:induction false} BlockSize(id: JobId, minutes: nat, people: nat)
    ensures |Block(id, minutes, people)| == minutes * people
  {
    if minutes == 0 {
      assert Block(id, minutes, people) == {};
    } else {
      BlockSize(id, minutes - 1, people);
      RowSize(id, minutes - 1, people);
      LastRow(id, minutes, people);
      DisjointSize(Block(id, minutes - 1, people), Row(id, minutes - 1, people));
      OneMoreTimes(minutes, people);
    }
  }

  lemma OneMoreTimes(a: int, b: int)
    ensures a * b == (a - 1) * b + b
  {
  }

  lemma LastRow(id: JobId, minutes: int, people: int)
    requires minutes > 0
    ensures Block(id, minutes, people) == Block(id, minutes - 1, people) + Row(id, minutes - 1, people)
    ensures Block(id, minutes - 1, people) !! Row(id, minutes - 1, people)
  {
    forall x | x in Block(id, minutes, people)
      ensures x in Block(id, minutes - 1, people) || x in Row(id, minutes - 1, people)
    {
      assert x == (id, x.1, x.2);
    }
    forall x | x in Row(id, minutes - 1, people) ensures x in Block(id, minutes, people) {
      assert x == (id, x.1, x.2);
    }
  }

  /** The load of distinct jobs is the number of their crew-minutes. */
  lemma {:induction false} LoadIsCrewMinutes(world: World, ids: seq<JobId>)
    requires Distinct(ids)
    ensures LoadOf(world, ids) == |CrewMinutes(world, SetOf(ids))|
    decreases |ids|
  {
    if ids != [] {
      var n := |ids| - 1;
      LoadIsCrewMinutes(world, ids[..n]);
      OneMoreJob(world, SetOf(ids[..n]), ids[n]);
      assert SetOf(ids) == SetOf(ids[..n]) + {ids[n]};
    }
  }

  lemma OneMoreJob(world: World, ids: set<JobId>, id: JobId)
    requires id !in ids
    ensures |CrewMinutes(world, ids + {id})| ==
            |CrewMinutes(world, ids)| + if id in world.jobs then Load(world.jobs[id]) else 0
  {
    if id in world.jobs {
      var job := world.jobs[id];
      BlockSize(id, job.duration, job.crewSize);
      assert CrewMinutes(world, ids + {id}) == CrewMinutes(world, ids) + Block(id, job.duration, job.crewSize);
      assert CrewMinutes(world, ids) !! Block(id, job.duration, job.crewSize);
    } else {
      assert CrewMinutes(world, ids + {id}) == CrewMinutes(world, ids);
    }
  }

  ghost function PutOn(
    world: World, horizon: seq<Day>, choice: Choice, jobs: seq<Job>, d: Day, cert: Option<Certification>): set<JobId>
  {
    set i | 0 <= i < |jobs| && GoesOn(world, horizon, choice, jobs[i], d, cert) :: jobs[i].id
  }

  lemma PutOnSnoc(
    world: World, horizon: seq<Day>, choice: Choice, jobs: seq<Job>, d: Day, cert: Option<Certification>)
    requires jobs != []
    ensures var n := |jobs| - 1;
            var rest := PutOn(world, horizon, choice, jobs[..n], d, cert);
            PutOn(world, horizon, choice, jobs, d, cert) ==
            if GoesOn(world, horizon, choice, jobs[n], d, cert) then rest + {jobs[n].id} else rest
  {
    assert forall i :: 0 <= i < |jobs| - 1 ==> jobs[..|jobs| - 1][i] == jobs[i];
  }

  lemma LastIsNew(world: World, horizon: seq<Day>, choice: Choice, jobs: seq<Job>, d: Day, cert: Option<Certification>)
    requires jobs != [] && Distinct(IdsOfJobs(jobs))
    ensures var n := |jobs| - 1;
            Distinct(IdsOfJobs(jobs[..n])) && jobs[n].id !in PutOn(world, horizon, choice, jobs[..n], d, cert)
  {
    var n := |jobs| - 1;
    assert IdsOfJobs(jobs[..n]) == IdsOfJobs(jobs)[..n];
    forall i | 0 <= i < n ensures jobs[i].id != jobs[n].id {
      assert IdsOfJobs(jobs)[i] != IdsOfJobs(jobs)[n];
    }
  }

  /** What the capacity constraints sum is the crew-minutes put on the day, of jobs listed once each. */
  lemma {:induction false} DemandIsCrewMinutes(
    world: World, horizon: seq<Day>, choice: Choice, jobs: seq<Job>, d: Day, cert: Option<Certification>)
    requires forall i :: 0 <= i < |jobs| ==> jobs[i].id in world.jobs && world.jobs[jobs[i].id] == jobs[i]
    requires Distinct(IdsOfJobs(jobs))
    ensures Demand(world, horizon, choice, jobs, d, cert) ==
            |CrewMinutes(world, PutOn(world, horizon, choice, jobs, d, cert))|
    decreases |jobs|
  {
    if jobs == [] {
      assert CrewMinutes(world, PutOn(world, horizon, choice, jobs, d, cert)) == {};
    } else {
      var n := |jobs| - 1;
      PutOnSnoc(world, horizon, choice, jobs, d, cert);
      LastIsNew(world, horizon, choice, jobs, d, cert);
      DemandIsCrewMinutes(world, horizon, choice, jobs[..n], d, cert);
      OneMoreJob(world, PutOn(world, horizon, choice, jobs[..n], d, cert), jobs[n].id);
    }
  }

  /** What a day has, overall or of one certification. */
  function Has(capacity: Capacity, cert: Option<Certification>): nat {
    if cert.None? then capacity.total else GetOr(capacity.byCert, cert.value, 0)
  }

  /** So much fits a day when the day has that much and no less was learned of it. */
  predicate Fits(base: Capacity, overrides: Overrides, d: Day, cert: Option<Certification>, n: nat) {
    n <= Has(base, cert) && WithinLearned(overrides, d, n)
  }

  /** The day is asked for no more crew-minutes, overall or of those who hold a certification, than it has and was
      found to take. */
  ghost predicate DayHolds(
    world: World, horizon: seq<Day>, jobs: seq<Job>, base: Capacity, overrides: Overrides, choice: Choice, d: Day)
  {
    forall cert: Option<Certification> ::
      Fits(base, overrides, d, cert, |CrewMinutes(world, PutOn(world, horizon, choice, jobs, d, cert))|)
  }

  lemma DayHoldsIff(
    world: World, horizon: seq<Day>, jobs: seq<Job>, base: Capacity, overrides: Overrides, choice: Choice, d: Day)
    requires forall i :: 0 <= i < |jobs| ==> jobs[i].id in world.jobs && world.jobs[jobs[i].id] == jobs[i]
    requires Distinct(IdsOfJobs(jobs))
    ensures DayHolds(world, horizon, jobs, base, overrides, choice, d) <==>
            forall cert: Option<Certification> ::
              Demand(world, horizon, choice, jobs, d, cert) <= Has(Effective(base, overrides, d), cert)
  {
    forall cert: Option<Certification>
      ensures Demand(world, horizon, choice, jobs, d, cert) <= Has(Effective(base, overrides, d), cert) <==>
              Fits(base, overrides, d, cert, |CrewMinutes(world, PutOn(world, horizon, choice, jobs, d, cert))|)
    {
      DemandIsCrewMinutes(world, horizon, choice, jobs, d, cert);
      FitsBothIff(base, overrides, d, Demand(world, horizon, choice, jobs, d, cert));
    }
  }

  /** Days for jobs are an answer exactly when each job has one of its days or none, and every day holds what is put
      on it. */
  lemma ChoiceOkIff(
    world: World, horizon: seq<Day>, jobs: seq<Job>, base: Day -> Capacity, overrides: Overrides, choice: Choice)
    requires forall i :: 0 <= i < |jobs| ==> jobs[i].id in world.jobs && world.jobs[jobs[i].id] == jobs[i]
    requires Distinct(IdsOfJobs(jobs))
    ensures ChoiceOk(world, horizon, jobs, base, overrides, choice) <==>
            && (forall i :: 0 <= i < |jobs| ==> OneDay(choice, jobs[i].id, AllowedDays(world, jobs[i], horizon)))
            && (forall d :: d in horizon ==> DayHolds(world, horizon, jobs, base(d), overrides, choice, d))
  {
    forall d ensures DayHolds(world, horizon, jobs, base(d), overrides, choice, d) <==>
                     WithinRoom(world, horizon, jobs, base(d), overrides, choice, d)
    {
      DayHoldsIff(world, horizon, jobs, base(d), overrides, choice, d);
      OverallAndEach(world, horizon, jobs, base(d), overrides, choice, d);
    }
  }

  lemma OverallAndEach(
    world: World, horizon: seq<Day>, jobs: seq<Job>, base: Capacity, overrides: Overrides, choice: Choice, d: Day)
    ensures WithinRoom(world, horizon, jobs, base, overrides, choice, d) <==>
            forall cert: Option<Certification> ::
              Demand(world, horizon, choice, jobs, d, cert) <= Has(Effective(base, overrides, d), cert)
  {
    if WithinRoom(world, horizon, jobs, base, overrides, choice, d) {
      forall cert: Option<Certification>
        ensures Demand(world, horizon, choice, jobs, d, cert) <= Has(Effective(base, overrides, d), cert)
      {
        assert cert.Some? ==> cert == Some(cert.value);
      }
    } else if c: Certification :|
        Demand(world, horizon, choice, jobs, d, Some(c)) > GetOr(Effective(base, overrides, d).byCert, c, 0) {
      assert Demand(world, horizon, choice, jobs, d, Some(c)) > Has(Effective(base, overrides, d), Some(c));
    } else {
      assert Demand(world, horizon, choice, jobs, d, None) > Has(Effective(base, overrides, d), None);
    }
  }

  /** Listed more than once, a job is asked for more than once. */
  lemma {:induction false} PutOnIsDemanded(
    world: World, horizon: seq<Day>, choice: Choice, jobs: seq<Job>, d: Day, cert: Option<Certification>)
    requires forall i :: 0 <= i < |jobs| ==> jobs[i].id in world.jobs && world.jobs[jobs[i].id] == jobs[i]
    ensures |CrewMinutes(world, PutOn(world, horizon, choice, jobs, d, cert))| <=
            Demand(world, horizon, choice, jobs, d, cert)
    decreases |jobs|
  {
    if jobs == [] {
      assert CrewMinutes(world, PutOn(world, horizon, choice, jobs, d, cert)) == {};
    } else {
      var n := |jobs| - 1;
      PutOnIsDemanded(world, horizon, choice, jobs[..n], d, cert);
      PutOnSnoc(world, horizon, choice, jobs, d, cert);
      AtMostOneMore(world, PutOn(world, horizon, choice, jobs[..n], d, cert), jobs[n].id);
    }
  }

  lemma AtMostOneMore(world: World, ids: set<JobId>, id: JobId)
    requires id in world.jobs
    ensures |CrewMinutes(world, ids + {id})| <= |CrewMinutes(world, ids)| + Load(world.jobs[id])
  {
    if id in ids {
      assert ids + {id} == ids;
    } else {
      OneMoreJob(world, ids, id);
    }
  }

  /** Those of the jobs that need the certification. */
  function Needing(world: World, ids: set<JobId>, cert: Option<Certification>): set<JobId> {
    set x | x in ids && x in world.jobs && Needs(world.jobs[x], cert)
  }

  lemma FewerCrewMinutes(world: World, some: set<JobId>, all: set<JobId>)
    requires some <= all
    ensures |CrewMinutes(world, some)| <= |CrewMinutes(world, all)|
  {
    SubsetSize(CrewMinutes(world, some), CrewMinutes(world, all));
  }

  lemma SubsetSize<T>(some: set<T>, all: set<T>)
    requires some <= all
    ensures |some| <= |all|
  {
    assert all == some + (all - some);
  }

  /** What is placed on a day was put on it by the solver. */
  lemma {:induction false} PlacedIsPutOn(
    world: World, horizon: seq<Day>, choice: Choice, jobs: seq<Job>, p: Placing)
    requires p in Placings(world, horizon, Some(choice), jobs)
    ensures exists i :: 0 <= i < |jobs| && jobs[i].id == p.id && GoesOn(world, horizon, choice, jobs[i], p.day, None)
    decreases |jobs|
  {
    var n := |jobs| - 1;
    if p in Placings(world, horizon, Some(choice), jobs[..n]) {
      PlacedIsPutOn(world, horizon, choice, jobs[..n], p);
      var i :| 0 <= i < n && jobs[..n][i].id == p.id && GoesOn(world, horizon, choice, jobs[..n][i], p.day, None);
      assert jobs[i].id == p.id && GoesOn(world, horizon, choice, jobs[i], p.day, None);
    } else {
      assert jobs[n].id == p.id && GoesOn(world, horizon, choice, jobs[n], p.day, None);
    }
  }

  /** Those placed on a day that need a certification are within what the constraint for it sums. */
  lemma PlacedIsWithinDemand(
    world: World, horizon: seq<Day>, choice: Choice, jobs: seq<Job>, d: Day, ids: set<JobId>,
    cert: Option<Certification>)
    requires forall i :: 0 <= i < |jobs| ==> jobs[i].id in world.jobs && world.jobs[jobs[i].id] == jobs[i]
    requires forall x :: x in ids ==> Placing(x, d) in Placings(world, horizon, Some(choice), jobs)
    ensures |CrewMinutes(world, Needing(world, ids, cert))| <= Demand(world, horizon, choice, jobs, d, cert)
  {
    forall x | x in Needing(world, ids, cert) ensures x in PutOn(world, horizon, choice, jobs, d, cert) {
      PlacedIsPutOn(world, horizon, choice, jobs, Placing(x, d));
      var i :| 0 <= i < |jobs| && jobs[i].id == x && GoesOn(world, horizon, choice, jobs[i], d, None);
      assert GoesOn(world, horizon, choice, jobs[i], d, cert);
    }
    FewerCrewMinutes(world, Needing(world, ids, cert), PutOn(world, horizon, choice, jobs, d, cert));
    PutOnIsDemanded(world, horizon, choice, jobs, d, cert);
  }

  /** The jobs a day is given never ask for more than the day was believed to have. */
  lemma {:induction false} TodaysLoadIsDemand(
    world: World, horizon: seq<Day>, choice: Choice, jobs: seq<Job>, d: Day)
    requires forall i :: 0 <= i < |jobs| ==> jobs[i].id in world.jobs && world.jobs[jobs[i].id] == jobs[i]
    ensures LoadOf(world, Todays(Placings(world, horizon, Some(choice), jobs), d)) <=
            Demand(world, horizon, choice, jobs, d, None)
    decreases |jobs|
  {
    if jobs != [] {
      var n := |jobs| - 1;
      TodaysLoadIsDemand(world, horizon, choice, jobs[..n], d);
      DemandSnoc(world, horizon, choice, jobs, d);
      var rest := Placings(world, horizon, Some(choice), jobs[..n]);
      var day := Given(world, horizon, Some(choice), jobs[n]);
      if day.Some? && jobs[n].id !in Keys(rest) {
        OneMorePlacing(world, rest, Placing(jobs[n].id, day.value), d);
      }
    }
  }

  /** One more job asks at least for the day it is given. */
  lemma DemandSnoc(world: World, horizon: seq<Day>, choice: Choice, jobs: seq<Job>, d: Day)
    requires jobs != []
    ensures var job, rest := jobs[|jobs| - 1], Demand(world, horizon, choice, jobs[..|jobs| - 1], d, None);
            Demand(world, horizon, choice, jobs, d, None) >=
            rest + if Given(world, horizon, Some(choice), job) == Some(d) then Load(job) else 0
  {
  }

  lemma OneMorePlacing(world: World, assignment: seq<Placing>, p: Placing, d: Day)
    requires p.id in world.jobs
    ensures LoadOf(world, Todays(assignment + [p], d)) ==
            LoadOf(world, Todays(assignment, d)) + if p.day == d then Load(world.jobs[p.id]) else 0
  {
    assert (assignment + [p])[..|assignment|] == assignment;
    var before := Todays(assignment, d);
    assert (before + [p.id])[..|before|] == before;
  }

  lemma NothingGivenNothingAsked(world: World, horizon: seq<Day>, jobs: seq<Job>)
    ensures Placings(world, horizon, None, jobs) == []
    decreases |jobs|
  {
  }

  lemma {:induction false} LoadJoin(world: World, a: seq<JobId>, b: seq<JobId>)
    ensures LoadOf(world, a + b) == LoadOf(world, a) + LoadOf(world, b)
    decreases |b|
  {
    if b == [] {
      assert a + b == a;
    } else {
      LoadJoin(world, a, b[..|b| - 1]);
      assert (a + b)[..|a + b| - 1] == a + b[..|b| - 1];
    }
  }

  function Without(ids: seq<JobId>, i: nat): seq<JobId>
    requires i < |ids|
  {
    ids[..i] + ids[i + 1..]
  }

  lemma WithoutOne(world: World, ids: seq<JobId>, i: nat)
    requires i < |ids| && Distinct(ids)
    ensures Distinct(Without(ids, i))
    ensures forall x :: x in ids && x != ids[i] ==> x in Without(ids, i)
    ensures LoadOf(world, ids) == LoadOf(world, Without(ids, i)) + LoadOf(world, [ids[i]])
  {
    OthersRemain(ids, i);
    LoadWithout(world, ids, i);
  }

  lemma OthersRemain(ids: seq<JobId>, i: nat)
    requires i < |ids| && Distinct(ids)
    ensures Distinct(Without(ids, i))
    ensures forall x :: x in ids && x != ids[i] ==> x in Without(ids, i)
  {
    forall x | x in ids && x != ids[i] ensures x in Without(ids, i) {
      var j :| 0 <= j < |ids| && ids[j] == x;
      assert Without(ids, i)[if j < i then j else j - 1] == x;
    }
  }

  lemma LoadWithout(world: World, ids: seq<JobId>, i: nat)
    requires i < |ids|
    ensures LoadOf(world, ids) == LoadOf(world, Without(ids, i)) + LoadOf(world, [ids[i]])
  {
    assert ids == (ids[..i] + [ids[i]]) + ids[i + 1..];
    LoadJoin(world, ids[..i] + [ids[i]], ids[i + 1..]);
    LoadJoin(world, ids[..i], [ids[i]]);
    LoadJoin(world, ids[..i], ids[i + 1..]);
  }

  /** Fewer jobs, no more load. */
  lemma {:induction false} SubsetLoadsLess(world: World, some: seq<JobId>, all: seq<JobId>)
    requires Distinct(some) && Distinct(all) && forall x :: x in some ==> x in all
    ensures LoadOf(world, some) <= LoadOf(world, all)
    decreases |some|
  {
    if some != [] {
      var n := |some| - 1;
      assert some[n] in some;
      var i :| 0 <= i < |all| && all[i] == some[n];
      WithoutOne(world, all, i);
      forall x | x in some[..n] ensures x in Without(all, i) {
        assert x in some && x != some[n];
      }
      SubsetLoadsLess(world, some[..n], Without(all, i));
      assert some == some[..n] + [some[n]];
      LoadJoin(world, some[..n], [some[n]]);
    }
  }

  /** Leaving a job out leaves strictly less load. */
  lemma MissingOneLoadsLess(world: World, some: seq<JobId>, all: seq<JobId>, missed: JobId)
    requires Distinct(some) && Distinct(all) && forall x :: x in some ==> x in all
    requires missed in all && missed !in some && missed in world.jobs
    ensures LoadOf(world, some) < LoadOf(world, all)
  {
    SubsetLoadsLess(world, some + [missed], all);
    assert (some + [missed])[..|some|] == some;
    var job := world.jobs[missed];
    assert Load(job) >= 1 by {
      PositiveProduct(job.duration, job.crewSize);
    }
  }

  lemma PositiveProduct(a: int, b: int)
    requires a > 0 && b > 0
    ensures a * b > 0
  {
  }
}
