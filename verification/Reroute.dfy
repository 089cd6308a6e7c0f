/** Repair candidates, the recommended one, and absorbing an outage without asking anyone
    (scheduler/repair.py, api/main.py). */
module Reroute {
  import opened Collections
  import opened Domain
  import opened Diff
  import opened PlanVersions
  import opened Repair
  import Checker
  import I = Invariants

  /** What planning the horizon returned for one strategy. */
  datatype Replanned = Replanned(routes: seq<Route>, unserved: seq<JobId>, released: seq<JobId>)

  datatype Candidate = Candidate(
    strategy: string, plan: Plan, scheduled: set<JobId>, diff: PlanDiff, released: seq<JobId>)

  function LockedSet(world: World): set<JobId> { set k | k in world.jobs && I.IsLocked(world, k) }

  function Decimal(n: nat): string {
    if n < 10 then [('0' as int + n) as char] else Decimal(n / 10) + [('0' as int + n % 10) as char]
  }

  /** The number a decimal stands for. */
  function ValueOf(s: string): int {
    if s == [] then 0 else ValueOf(s[..|s| - 1]) * 10 + (s[|s| - 1] as int - '0' as int)
  }

  /** So candidates of different number have different ids. */
  lemma {:induction false} DecimalStandsForIt(n: nat)
    ensures ValueOf(Decimal(n)) == n
  {
    var s := Decimal(n);
    if n < 10 {
      assert s[..0] == [];
    } else {
      DecimalStandsForIt(n / 10);
      assert s[..|s| - 1] == Decimal(n / 10);
    }
  }

  lemma CandidatesDiffer(world: World, baseline: Plan, i: nat, j: nat, c: Candidate, d: Candidate)
    requires IsSomeRepair(world, baseline, i, c) && IsSomeRepair(world, baseline, j, d) && i != j
    ensures c.plan.id != d.plan.id
  {
    DecimalStandsForIt(i);
    DecimalStandsForIt(j);
    var stem := baseline.id + "-repair-";
    assert c.plan.id[|stem|..] == Decimal(i) && d.plan.id[|stem|..] == Decimal(j);
  }

  /** Candidate number `index`: the carried work first, then what the reduced world was replanned to. */
  ghost predicate IsRepair(
    world: World, baseline: Plan, index: nat, strategy: string, result: Replanned, c: Candidate)
  {
    && c.strategy == strategy
    && c.plan == Plan(baseline.id + "-repair-" + Decimal(index), Some(baseline.id), world.asOf,
                      baseline.horizonStart, baseline.horizonEnd,
                      Carried(baseline.routes, LockedSet(world)) + result.routes, result.unserved, strategy)
    && c.scheduled == SetOf(RoutedJobs(result.routes))
    && c.released == result.released
    && c.diff.costDelta == 0
    && IsDiff(c.diff.changes, PlacementsOf(baseline.routes), PlacementsOf(c.plan.routes), world)
  }

  method RepairPlan(
    world: World, baseline: Plan, strategies: seq<string>, replan: (World, nat) -> Replanned)
    returns (candidates: seq<Candidate>)
    requires WellKeyed(world)
    ensures |candidates| == |strategies|
    ensures forall i :: 0 <= i < |candidates| ==>
              IsRepair(world, baseline, i, strategies[i],
                       replan(Reduced(world, Carried(baseline.routes, LockedSet(world))), i), candidates[i])
    ensures AreRepairs(world, baseline, candidates)
  {
    var locked := LockedJobs(world);
    assert SetOf(locked) == LockedSet(world);
    var planningWorld, carried := CarveOutLocked(world, baseline, SetOf(locked));
    candidates := [];
    for index := 0 to |strategies|
      invariant |candidates| == index
      invariant forall i :: 0 <= i < index ==>
                  IsRepair(world, baseline, i, strategies[i], replan(planningWorld, i), candidates[i])
    {
      var result := replan(planningWorld, index);
      var plan := Plan(baseline.id + "-repair-" + Decimal(index), Some(baseline.id), world.asOf,
                       baseline.horizonStart, baseline.horizonEnd, carried + result.routes, result.unserved,
                       strategies[index]);
      var diff := DiffPlans(baseline.routes, plan.routes, world, 0);
      candidates := candidates
        + [Candidate(strategies[index], plan, SetOf(RoutedJobs(result.routes)), diff, result.released)];
    }
    forall i: nat | i < |candidates| ensures IsSomeRepair(world, baseline, i, candidates[i]) {
      assert IsRepair(world, baseline, i, strategies[i], replan(planningWorld, i), candidates[i]);
    }
  }

  /** No candidate, of any strategy, moves work in flight. */
  lemma CandidatesKeepLocked(world: World, baseline: Plan, index: nat, strategy: string, result: Replanned,
      c: Candidate)
    requires IsRepair(world, baseline, index, strategy, result, c)
    requires Distinct(RoutedJobs(baseline.routes))
    ensures I.LockedUnmoved(c.plan.routes, baseline.routes, world)
  {
    DistinctPlanAgrees(world, baseline.routes);
    CarryingMovesNothing(world, baseline.routes, LockedSet(world), result.routes);
  }

  // ---------------------------------------------------------- the recommendation

  function Calls(c: Candidate): nat { |VisibleChanges(c.diff.changes)| }

  /** Fewer calls; then more jobs served; then fewer changes. */
  predicate Better(a: Candidate, b: Candidate) {
    || Calls(a) < Calls(b)
    || (Calls(a) == Calls(b) && |a.scheduled| > |b.scheduled|)
    || (Calls(a) == Calls(b) && |a.scheduled| == |b.scheduled| && |a.diff.changes| < |b.diff.changes|)
  }

  /** `min` over the candidates, the first of several equal ones. */
  function BestByFewestCalls(candidates: seq<Candidate>): (best: Option<Candidate>)
    ensures best.None? <==> candidates == []
  {
    if candidates == [] then None
    else
      var before, last := BestByFewestCalls(candidates[..|candidates| - 1]), candidates[|candidates| - 1];
      if before.None? || Better(last, before.value) then Some(last) else before
  }

  lemma OneMoreCandidate(before: seq<Candidate>, i: int, last: Candidate)
    requires 0 <= i < |before| && FirstBest(before, i)
    ensures FirstBest(before + [last], if Better(last, before[i]) then |before| else i)
  {
    var all := before + [last];
    var best := if Better(last, before[i]) then |before| else i;
    forall j | 0 <= j < |all|
      ensures !Better(all[j], all[best]) && (j < best ==> Better(all[best], all[j]))
    {
      if j < |before| {
        assert all[j] == before[j] && !Better(before[j], before[i]) && (j < i ==> Better(before[i], before[j]));
      }
    }
  }

  /** Of all candidates the one recommended needs the fewest calls; of those the one that serves the most jobs; of those
      the one with the fewest changes; and of those the first. */
  ghost predicate Recommended(candidates: seq<Candidate>, i: int)
    requires 0 <= i < |candidates|
  {
    forall j :: 0 <= j < |candidates| ==> AtLeastAsGood(candidates[i], candidates[j], i <= j)
  }

  /** Between equals the first counts. */
  ghost predicate AtLeastAsGood(best: Candidate, c: Candidate, first: bool) {
    var few, many := |VisibleAt(best.diff.changes)|, |VisibleAt(c.diff.changes)|;
    && few <= many
    && (few == many ==> |best.scheduled| >= |c.scheduled|)
    && (few == many && |best.scheduled| == |c.scheduled| ==>
          |best.diff.changes| <= |c.diff.changes| && (|best.diff.changes| == |c.diff.changes| ==> first))
  }

  lemma BestIsFirstBest(candidates: seq<Candidate>)
    requires candidates != []
    ensures exists i :: 0 <= i < |candidates| && Recommended(candidates, i)
                        && BestByFewestCalls(candidates) == Some(candidates[i])
  {
    FirstBestIsTaken(candidates);
    var i :| 0 <= i < |candidates| && FirstBest(candidates, i) && BestByFewestCalls(candidates) == Some(candidates[i]);
    forall j | 0 <= j < |candidates| ensures AtLeastAsGood(candidates[i], candidates[j], i <= j) {
      CallsAreTheVisible(candidates[i].diff.changes);
      CallsAreTheVisible(candidates[j].diff.changes);
      assert !Better(candidates[j], candidates[i]) && (j < i ==> Better(candidates[i], candidates[j]));
    }
    assert Recommended(candidates, i);
  }

  lemma {:induction false} FirstBestIsTaken(candidates: seq<Candidate>)
    requires candidates != []
    ensures exists i :: 0 <= i < |candidates| && FirstBest(candidates, i)
                        && BestByFewestCalls(candidates) == Some(candidates[i])
    decreases |candidates|
  {
    var n := |candidates| - 1;
    if n == 0 {
      assert FirstBest(candidates, 0);
    } else {
      FirstBestIsTaken(candidates[..n]);
      var i :| 0 <= i < n && FirstBest(candidates[..n], i)
        && BestByFewestCalls(candidates[..n]) == Some(candidates[..n][i]);
      OneMoreCandidate(candidates[..n], i, candidates[n]);
      assert candidates == candidates[..n] + [candidates[n]];
    }
  }

  predicate FirstBest(candidates: seq<Candidate>, i: int)
    requires 0 <= i < |candidates|
  {
    && (forall j :: 0 <= j < |candidates| ==> !Better(candidates[j], candidates[i]))
    && (forall j :: 0 <= j < i ==> Better(candidates[i], candidates[j]))
  }

  // ------------------------------------------------------------ the quiet reroute

  /** The checker's tolerances as the service uses them: a minute's slack and no promise released. */
  const STRICT := I.Config(1, true, {})

  /** Candidate number `index` of some strategy, whatever the replanning made of it. */
  ghost predicate IsSomeRepair(world: World, baseline: Plan, index: nat, c: Candidate) {
    exists strategy, result :: IsRepair(world, baseline, index, strategy, result, c)
  }

  /** What `RepairPlan` makes of a plan in a world. */
  ghost predicate AreRepairs(world: World, baseline: Plan, candidates: seq<Candidate>) {
    forall i: nat :: i < |candidates| ==> IsSomeRepair(world, baseline, i, candidates[i])
  }

  /** The recommended candidate, as every other, moves nothing locked; and its diff is against the baseline. */
  lemma RecommendedIsARepair(world: World, baseline: Plan, candidates: seq<Candidate>)
    requires AreRepairs(world, baseline, candidates) && candidates != []
    ensures var best := BestByFewestCalls(candidates).value;
            && IsDiff(best.diff.changes, PlacementsOf(baseline.routes), PlacementsOf(best.plan.routes), world)
            && (Distinct(RoutedJobs(baseline.routes)) ==>
                  I.LockedUnmoved(best.plan.routes, baseline.routes, world))
  {
    FirstBestIsTaken(candidates);
    var i :| 0 <= i < |candidates| && FirstBest(candidates, i) && BestByFewestCalls(candidates) == Some(candidates[i]);
    assert IsSomeRepair(world, baseline, i, candidates[i]);
    var strategy, result :| IsRepair(world, baseline, i, strategy, result, candidates[i]);
    if Distinct(RoutedJobs(baseline.routes)) {
      CandidatesKeepLocked(world, baseline, i, strategy, result, candidates[i]);
    }
  }

  /** What has to hold for an outage to be absorbed without asking. */
  ghost predicate PressIsFree(
    head: Option<Plan>, world: World, travel: Travel, best: Option<Candidate>, baseline: Plan, policy: Policy)
  {
    && head.Some? && !I.PlanOk(head.value, world, travel, STRICT)
    && best.Some? && !AnyVisible(best.value.diff.changes)
    && SetOf(RoutedJobs(baseline.routes)) <= SetOf(RoutedJobs(best.value.plan.routes))
    && WithinPolicy(best.value.diff, policy, 0)
    && I.PlanOk(best.value.plan, world, travel, STRICT)
  }

  /** The reroute after an outage. `head` and `world` are what was read first; `repaired` is what the repair
      made of its own, later reading of the head, or nothing if it failed; the store may have moved on since.
      Whatever it commits is free of violations with no promise released, serves every job the plan it
      replaces served, keeps every promise, moves no work in flight, and replaces exactly the plan the repair
      started from. */
  method QuietReroute(
    store: S3PlanStore, head: Option<Plan>, world: World, travel: Travel,
    repaired: Option<(seq<Candidate>, Plan)>, ghost repairWorld: World, policy: Policy)
    returns (committed: Option<Plan>)
    requires repaired.Some? ==> AreRepairs(repairWorld, repaired.value.1, repaired.value.0)
    modifies store
    ensures committed.Some? <==>
              && repaired.Some?
              && var (candidates, baseline) := repaired.value;
                 var best := BestByFewestCalls(candidates);
              && PressIsFree(head, world, travel, best, baseline, policy)
              && ObjectCommit(old(store.View()), best.value.plan, Some(baseline.id)).1.Stored?
    ensures committed.None? ==> store.View() == old(store.View())
    ensures committed.Some? ==>
              var baseline := repaired.value.1;
              && old(store.head) == Some(baseline.id)
              && store.head == Some(committed.value.id)
              && I.PlanOk(committed.value, world, travel, STRICT)
              && SetOf(RoutedJobs(baseline.routes)) <= SetOf(RoutedJobs(committed.value.routes))
              && AllPromisesKept(baseline.routes, committed.value.routes, repairWorld)
              && (Distinct(RoutedJobs(baseline.routes)) ==>
                    I.LockedUnmoved(committed.value.routes, baseline.routes, repairWorld))
  {
    if head.None? {
      return None;
    }
    var broken := Checker.ValidatePlan(head.value, world, travel, STRICT);
    if broken == [] {
      return None;
    }
    if repaired.None? {
      return None;
    }
    var (candidates, baseline) := repaired.value;
    var best := BestByFewestCalls(candidates);
    if best.None? {
      return None;
    }
    NoCallsIffNothingVisible(best.value.diff.changes);
    if Calls(best.value) != 0 {
      return None;
    }
    var servedBefore, servedAfter := SetOf(RoutedJobs(baseline.routes)), SetOf(RoutedJobs(best.value.plan.routes));
    if !(servedBefore <= servedAfter) {
      return None;
    }
    var decision := Decide(best.value.diff, policy, 0);
    if !decision.AutoApply? {
      return None;
    }
    var violations := Checker.ValidatePlan(best.value.plan, world, travel, STRICT);
    if violations != [] {
      return None;
    }
    RecommendedIsARepair(repairWorld, baseline, candidates);
    VisibleIffAPromiseBroke(best.value.diff, baseline.routes, best.value.plan.routes, repairWorld);
    var outcome := store.Commit(best.value.plan, Some(baseline.id));
    if outcome.Refused? {
      return None;
    }
    return Some(outcome.plan);
  }
}
