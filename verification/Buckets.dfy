/** Roads that change with the traffic bucket: where the sampled matrix bounds every drive a crew makes, and
    where it does not (scheduler/travel/base.py, scheduler/day_planner.py). */
module Buckets {
  import opened Domain
  import opened DayPlanner
  import opened Agreement

  /** The bucket of a moment: at weekends always the middle of the day. */
  function BucketOf(t: Moment): nat {
    var clock := ClockOf(t);
    if Weekday(DayOf(t)) >= 5 then 2
    else if clock < 420 then 0
    else if clock < 570 then 1
    else if clock < 900 then 2
    else if clock < 1110 then 3
    else 4
  }

  /** A drive depends on its departure only through the bucket, and takes no time at all in one bucket exactly when
      it takes none in any. */
  ghost predicate Bucketed(travel: Travel) {
    && (forall from: Location, to: Location, t: Moment, u: Moment ::
          BucketOf(t) == BucketOf(u) ==> travel(from, to, t) == travel(from, to, u))
    && (forall from: Location, to: Location, t: Moment, u: Moment ::
          travel(from, to, t).minutes == 0 ==> travel(from, to, u).minutes == 0)
  }

  /** Some probe falls in the moment's bucket. */
  predicate Sampled(probes: seq<Moment>, t: Moment) {
    exists probe :: probe in probes && BucketOf(probe) == BucketOf(t)
  }

  /** Whatever the bucketed roads, a drive begun at `t` takes no longer than the slowest probe says. */
  ghost predicate NeverSlower(probes: seq<Moment>, t: Moment) {
    forall travel: Travel, from: Location, to: Location :: Bucketed(travel) ==>
      travel(from, to, t).minutes <= WorstLeg(travel, from, to, probes)
  }

  /** Exactly the drives begun in a sampled bucket are bounded. */
  lemma NeverSlowerIff(probes: seq<Moment>, t: Moment)
    ensures NeverSlower(probes, t) <==> Sampled(probes, t)
  {
    if Sampled(probes, t) {
      var probe :| probe in probes && BucketOf(probe) == BucketOf(t);
      forall travel: Travel, from: Location, to: Location | Bucketed(travel)
        ensures travel(from, to, t).minutes <= WorstLeg(travel, from, to, probes)
      {
        ProbedIsBounded(travel, from, to, probes, probe);
      }
    } else {
      var travel, here := JamIn(BucketOf(t)), Location(0.0, 0.0);
      NoProbeSeesTheJam(here, here, probes, BucketOf(t));
      assert Bucketed(travel) && travel(here, here, t).minutes == 2;
    }
  }

  /** Roads that are slow in one bucket only. */
  function JamIn(bucket: nat): Travel {
    (from: Location, to: Location, t: Moment) => Leg(if BucketOf(t) == bucket then 2 else 1, 1.0)
  }

  lemma {:induction false} NoProbeSeesTheJam(from: Location, to: Location, probes: seq<Moment>, bucket: nat)
    requires forall probe :: probe in probes ==> BucketOf(probe) != bucket
    ensures WorstLeg(JamIn(bucket), from, to, probes) <= 1
  {
    if probes != [] {
      NoProbeSeesTheJam(from, to, probes[..|probes| - 1], bucket);
    }
  }

  /** Between the earliest start and the latest end with overtime, within the day, every bucket is sampled. */
  lemma ProbedHoursAreSampled(params: Params, probes: seq<Moment>, p: Problem, i: nat, j: nat, t: Moment)
    requires ProbesPosed(params, probes, p) && params.travelBucket.None? && i < |p.span| && j < |p.span|
    requires DayStart(p.onDate) + p.span[i].0 <= t < DayStart(p.onDate) + p.span[j].1 + p.overtime
    requires DayStart(p.onDate) <= t < DayStart(p.onDate) + MINUTES_PER_DAY
    ensures Sampled(probes, t)
  {
    ClockWithinDay(p.onDate, t);
    var clock := ClockOf(t);
    var b := if clock < 420 then 0 else if clock < 570 then 1 else if clock < 900 then 2
             else if clock < 1110 then 3 else 4;
    assert BUCKETS[b] in BUCKETS && BUCKETS[b].0 <= clock < BUCKETS[b].1;
    var probe := DayStart(p.onDate) + BUCKETS[b].2;
    ClockWithinDay(p.onDate, probe);
    assert probe in probes && BucketOf(probe) == BucketOf(t);
  }

  /** The crew is home by the latest hour the matrix was sampled for. */
  ghost predicate HomeInProbedHours(p: Problem, a: Assignment, k: nat) {
    exists j :: 0 <= j < |p.span| && a.crewEnd(k) <= p.span[j].1 + p.overtime
  }

  /** A crew whose depot is the one measured from and whose hours were sampled never meets a drive slower than
      the matrix says, on any roads that depend on the bucket. */
  lemma BucketedTravelSuffices(
    travel: Travel, params: Params, probes: seq<Moment>, p: Problem, a: Assignment, i: nat, k: nat)
    requires MatrixPosed(travel, probes, p) && ProbesPosed(params, probes, p) && params.travelBucket.None?
    requires Bucketed(travel) && Sized(p) && HourRules(p, a)
    requires k < |p.vans| && p.vans[k].homeDepot == p.vans[0].homeDepot
    requires i < |p.workers| && a.assign(i, k) && HomeInProbedHours(p, a, k)
    ensures Pessimistic(p, a, travel, k)
  {
    var j :| 0 <= j < |p.span| && a.crewEnd(k) <= p.span[j].1 + p.overtime;
    forall u: nat, v: nat, t: Moment | u <= |p.jobs| && v <= |p.jobs| && u != v
      ensures DriveBounded(p, a, travel, k, u, v, t)
    {
      if MaySetOut(p, a, k, u, v, t) {
        assert NodeOf(p, k, u) == Node(p, u) && NodeOf(p, k, v) == Node(p, v);
        if p.matrix[u][v] == 0 {
          ProbedIsBounded(travel, Node(p, u), Node(p, v), probes, probes[0]);
        } else {
          ProbedHoursAreSampled(params, probes, p, i, j, t);
          NeverSlowerIff(probes, t);
          assert NeverSlower(probes, t);
        }
      }
    }
  }
}
