/** Stored plan versions: what identifies their content, the parent chain, and the two single-writer
    stores (domain/models.py, persistence/log.py, persistence/s3.py). */
module PlanVersions {
  import opened Collections
  import opened Domain

  // ------------------------------------------------------------------- content

  datatype StopDecision = StopDecision(job: JobId, arrival: Moment, departure: Moment)

  datatype RouteDecision = RouteDecision(
    crewId: string, date: Day, workers: seq<WorkerId>, vanId: VanId, stops: seq<StopDecision>)

  datatype Decisions = Decisions(routes: seq<RouteDecision>, unserved: seq<JobId>)

  predicate RouteLe(a: Route, b: Route) {
    a.date < b.date || (a.date == b.date && StringLe(a.crewId, b.crewId))
  }

  function DecisionOf(r: Route): RouteDecision {
    RouteDecision(r.crewId, r.date, Sort(r.workerIds, StringLe), r.vanId,
                  seq(|r.stops|, i requires 0 <= i < |r.stops| =>
                    StopDecision(r.stops[i].jobId, r.stops[i].arrival, r.stops[i].departure)))
  }

  /** The scheduling decisions a plan's digest is taken over; the digest is as good as these. */
  function Content(p: Plan): Decisions {
    var ordered := Sort(p.routes, RouteLe);
    Decisions(seq(|ordered|, i requires 0 <= i < |ordered| => DecisionOf(ordered[i])), Sort(p.unserved, StringLe))
  }

  // ------------------------------------------------ what plans of one content share

  /** The same van, people, jobs and times, on the same day under the same crew. */
  predicate SameDecision(r: Route, s: Route) {
    && r.crewId == s.crewId && r.date == s.date && r.vanId == s.vanId
    && multiset(r.workerIds) == multiset(s.workerIds) && |r.stops| == |s.stops|
    && forall i :: 0 <= i < |r.stops| ==>
         && r.stops[i].jobId == s.stops[i].jobId
         && r.stops[i].arrival == s.stops[i].arrival && r.stops[i].departure == s.stops[i].departure
  }

  predicate SameInTurn(a: seq<Route>, b: seq<Route>) {
    |a| == |b| && forall i :: 0 <= i < |a| ==> SameDecision(a[i], b[i])
  }

  function OnKey(date: Day, crewId: string): Route -> bool { (r: Route) => r.date == date && r.crewId == crewId }

  /** Crew by crew and day by day the same decisions, and the same jobs left unserved. */
  ghost predicate SameDecisions(p: Plan, q: Plan) {
    && multiset(p.unserved) == multiset(q.unserved)
    && forall date: Day, crewId: string :: SameOnKey(p, q, date, crewId)
  }

  predicate SameOnKey(p: Plan, q: Plan, date: Day, crewId: string) {
    SameInTurn(Keep(p.routes, OnKey(date, crewId)), Keep(q.routes, OnKey(date, crewId)))
  }

  lemma SortedAlikeIff(a: seq<string>, b: seq<string>)
    ensures Sort(a, StringLe) == Sort(b, StringLe) <==> multiset(a) == multiset(b)
  {
    StringLeIsOrder();
    SortKeeps(a, StringLe);
    SortKeeps(b, StringLe);
    SortSorts(a, StringLe);
    SortSorts(b, StringLe);
    if multiset(a) == multiset(b) {
      SortedIsUnique(Sort(a, StringLe), Sort(b, StringLe), StringLe);
    }
  }

  lemma DecisionIff(r: Route, s: Route)
    ensures DecisionOf(r) == DecisionOf(s) <==> SameDecision(r, s)
  {
    SortedAlikeIff(r.workerIds, s.workerIds);
    var a, b := DecisionOf(r).stops, DecisionOf(s).stops;
    if DecisionOf(r) == DecisionOf(s) {
      forall i | 0 <= i < |r.stops|
        ensures r.stops[i].jobId == s.stops[i].jobId
        ensures r.stops[i].arrival == s.stops[i].arrival && r.stops[i].departure == s.stops[i].departure
      {
        assert a[i] == b[i];
      }
    }
    if SameDecision(r, s) {
      assert a == b;
    }
  }

  function DecisionsOf(routes: seq<Route>): (r: seq<RouteDecision>)
    ensures |r| == |routes| && forall i :: 0 <= i < |r| ==> r[i] == DecisionOf(routes[i])
  {
    seq(|routes|, i requires 0 <= i < |routes| => DecisionOf(routes[i]))
  }

  lemma DecisionsIff(a: seq<Route>, b: seq<Route>)
    ensures DecisionsOf(a) == DecisionsOf(b) <==> SameInTurn(a, b)
  {
    if DecisionsOf(a) == DecisionsOf(b) {
      forall i | 0 <= i < |a| ensures SameDecision(a[i], b[i]) {
        assert DecisionsOf(a)[i] == DecisionsOf(b)[i];
        DecisionIff(a[i], b[i]);
      }
    }
    if SameInTurn(a, b) {
      forall i | 0 <= i < |a| ensures DecisionsOf(a)[i] == DecisionsOf(b)[i] {
        DecisionIff(a[i], b[i]);
      }
    }
  }

  predicate DecisionLe(a: RouteDecision, b: RouteDecision) {
    a.date < b.date || (a.date == b.date && StringLe(a.crewId, b.crewId))
  }

  function DecidedOn(date: Day, crewId: string): RouteDecision -> bool {
    (d: RouteDecision) => d.date == date && d.crewId == crewId
  }

  lemma {:induction false} KeepDecided(routes: seq<Route>, date: Day, crewId: string)
    ensures Keep(DecisionsOf(routes), DecidedOn(date, crewId)) == DecisionsOf(Keep(routes, OnKey(date, crewId)))
  {
    if routes != [] {
      KeepDecided(routes[1..], date, crewId);
      assert DecisionsOf(routes)[1..] == DecisionsOf(routes[1..]);
      var rest := Keep(routes[1..], OnKey(date, crewId));
      assert DecisionsOf([routes[0]] + rest) == [DecisionOf(routes[0])] + DecisionsOf(rest);
    }
  }

  lemma RouteLeIsOrder()
    ensures TotalPreorder(RouteLe)
  {
    StringLeIsOrder();
  }

  /** Listed by day and crew, the routes of one crew and day stay as they were. */
  lemma OrderedOnKey(routes: seq<Route>, date: Day, crewId: string)
    ensures Keep(Sort(routes, RouteLe), OnKey(date, crewId)) == Keep(routes, OnKey(date, crewId))
  {
    var kept := Keep(routes, OnKey(date, crewId));
    RouteLeIsOrder();
    StringLeIsOrder();
    KeepSort(routes, RouteLe, OnKey(date, crewId));
    KeepMembers(routes, OnKey(date, crewId));
    forall i, j | 0 <= i < |kept| && 0 <= j < |kept| ensures RouteLe(kept[i], kept[j]) {
      assert kept[i] in kept && kept[j] in kept;
    }
    SortOfTies(kept, RouteLe);
  }

  /** Two listings in order that agree on every day and crew are the same. */
  lemma {:induction false} AgreeOnEveryKey(a: seq<RouteDecision>, b: seq<RouteDecision>)
    requires SortedBy(a, DecisionLe) && SortedBy(b, DecisionLe)
    requires forall date: Day, crewId: string :: AgreeOnKey(a, b, date, crewId)
    ensures a == b
    decreases |a|
  {
    if a == [] {
      NothingAgreesWithSome(b);
    } else {
      assert AgreeOnKey(a, b, a[0].date, a[0].crewId);
      KeepMembers(b, DecidedOn(a[0].date, a[0].crewId));
      assert a[0] in Keep(a, DecidedOn(a[0].date, a[0].crewId));
      FirstDecided(a, b);
      forall date: Day, crewId: string ensures AgreeOnKey(a[1..], b[1..], date, crewId) {
        TailsAgree(a, b, date, crewId);
      }
      AgreeOnEveryKey(a[1..], b[1..]);
      assert a == [a[0]] + a[1..] && b == [b[0]] + b[1..];
    }
  }

  lemma NothingAgreesWithSome(b: seq<RouteDecision>)
    ensures b != [] ==> !AgreeOnKey([], b, b[0].date, b[0].crewId)
  {
    if b != [] {
      assert Keep(b, DecidedOn(b[0].date, b[0].crewId))[0] == b[0];
    }
  }

  predicate AgreeOnKey(a: seq<RouteDecision>, b: seq<RouteDecision>, date: Day, crewId: string) {
    Keep(a, DecidedOn(date, crewId)) == Keep(b, DecidedOn(date, crewId))
  }

  lemma TailsAgree(a: seq<RouteDecision>, b: seq<RouteDecision>, date: Day, crewId: string)
    requires a != [] && b != [] && a[0] == b[0] && AgreeOnKey(a, b, date, crewId)
    ensures AgreeOnKey(a[1..], b[1..], date, crewId)
  {
    var keep := DecidedOn(date, crewId);
    if keep(a[0]) {
      assert Keep(a, keep)[1..] == Keep(a[1..], keep) && Keep(b, keep)[1..] == Keep(b[1..], keep);
    }
  }

  lemma FirstDecided(a: seq<RouteDecision>, b: seq<RouteDecision>)
    requires SortedBy(a, DecisionLe) && SortedBy(b, DecisionLe) && a != [] && b != []
    requires forall date: Day, crewId: string :: AgreeOnKey(a, b, date, crewId)
    ensures a[0] == b[0]
  {
    var p, q := DecidedOn(a[0].date, a[0].crewId), DecidedOn(b[0].date, b[0].crewId);
    assert AgreeOnKey(a, b, a[0].date, a[0].crewId) && AgreeOnKey(a, b, b[0].date, b[0].crewId);
    KeepMembers(a, q);
    KeepMembers(b, p);
    assert a[0] in Keep(a, p) && b[0] in Keep(b, q);
    assert a[0] in b && b[0] in a;
    NotBeforeFirst(a, b[0]);
    NotBeforeFirst(b, a[0]);
    StringLeIsOrder();
    assert Keep(a, p)[0] == a[0] && Keep(b, p)[0] == b[0];
  }

  lemma NotBeforeFirst(s: seq<RouteDecision>, d: RouteDecision)
    requires SortedBy(s, DecisionLe) && d in s
    ensures DecisionLe(s[0], d)
  {
    StringLeIsOrder();
    var i :| 0 <= i < |s| && s[i] == d;
    if i > 0 {
      assert DecisionLe(s[0], s[i]);
    }
  }

  lemma OrderedDecisions(routes: seq<Route>)
    ensures SortedBy(DecisionsOf(Sort(routes, RouteLe)), DecisionLe)
    ensures forall date: Day, crewId: string ::
              Keep(DecisionsOf(Sort(routes, RouteLe)), DecidedOn(date, crewId)) ==
              DecisionsOf(Keep(routes, OnKey(date, crewId)))
  {
    var ordered := Sort(routes, RouteLe);
    RouteLeIsOrder();
    SortSorts(routes, RouteLe);
    forall i, j | 0 <= i < j < |ordered| ensures DecisionLe(DecisionsOf(ordered)[i], DecisionsOf(ordered)[j]) {
      assert RouteLe(ordered[i], ordered[j]);
    }
    forall date: Day, crewId: string
      ensures Keep(DecisionsOf(ordered), DecidedOn(date, crewId)) == DecisionsOf(Keep(routes, OnKey(date, crewId)))
    {
      KeepDecided(ordered, date, crewId);
      OrderedOnKey(routes, date, crewId);
    }
  }

  /** Two plans have one content exactly when they leave the same jobs unserved and, crew by crew and day by day, send
      the same people in the same van to the same jobs at the same times. */
  lemma ContentIff(p: Plan, q: Plan)
    ensures Content(p) == Content(q) <==> SameDecisions(p, q)
  {
    var a, b := DecisionsOf(Sort(p.routes, RouteLe)), DecisionsOf(Sort(q.routes, RouteLe));
    assert Content(p).routes == a && Content(q).routes == b;
    SortedAlikeIff(p.unserved, q.unserved);
    OrderedDecisions(p.routes);
    OrderedDecisions(q.routes);
    forall date: Day, crewId: string ensures AgreeOnKey(a, b, date, crewId) <==> SameOnKey(p, q, date, crewId) {
      DecisionsIff(Keep(p.routes, OnKey(date, crewId)), Keep(q.routes, OnKey(date, crewId)));
    }
    if SameDecisions(p, q) {
      forall date: Day, crewId: string ensures AgreeOnKey(a, b, date, crewId) {
        assert SameOnKey(p, q, date, crewId);
      }
      AgreeOnEveryKey(a, b);
    }
    if Content(p) == Content(q) {
      forall date: Day, crewId: string ensures SameOnKey(p, q, date, crewId) {
        assert AgreeOnKey(a, b, date, crewId);
      }
    }
  }

  // ------------------------------------------------------------------ ancestry

  type Versions = map<PlanId, Plan>

  function IdsIn(versions: Versions): set<PlanId> { set k | k in versions :: versions[k].id }

  function ParentOf(versions: Versions, p: Plan): Option<Plan> {
    if p.parentId.Some? && p.parentId.value != "" then Get(versions, p.parentId.value) else None
  }

  /** The parent chain from `current`, newest first, stopping at an id already seen. */
  function Chain(versions: Versions, current: Option<Plan>, seen: set<PlanId>): seq<Plan>
    requires current.Some? ==> current.value in versions.Values
    decreases IdsIn(versions) - seen
  {
    if current.None? || current.value.id in seen then []
    else
      StoredIdIsIn(versions, current.value);
      [current.value] + Chain(versions, ParentOf(versions, current.value), seen + {current.value.id})
  }

  lemma StoredIdIsIn(versions: Versions, p: Plan)
    requires p in versions.Values
    ensures p.id in IdsIn(versions)
  {
    var k :| k in versions && versions[k] == p;
  }

  /** Where a walk starts: the version asked for, or the head. */
  function StartOf(versions: Versions, head: Option<PlanId>, planId: Option<PlanId>): Option<Plan> {
    if planId.Some? && planId.value != "" then Get(versions, planId.value)
    else if head.Some? then Get(versions, head.value) else None
  }

  function Ancestry(versions: Versions, head: Option<PlanId>, planId: Option<PlanId>): seq<Plan> {
    Chain(versions, StartOf(versions, head, planId), {})
  }

  lemma ChainStep(versions: Versions, p: Plan, seen: set<PlanId>)
    requires p in versions.Values && p.id !in seen
    ensures p.id in IdsIn(versions)
    ensures ParentOf(versions, p).Some? ==> ParentOf(versions, p).value in versions.Values
    ensures Chain(versions, Some(p), seen) == [p] + Chain(versions, ParentOf(versions, p), seen + {p.id})
  {
    StoredIdIsIn(versions, p);
  }

  /** The loop ends on any store, whatever its parent pointers: each turn sees a new id. */
  method WalkAncestry(versions: Versions, head: Option<PlanId>, planId: Option<PlanId>) returns (chain: seq<Plan>)
    ensures chain == Ancestry(versions, head, planId)
  {
    var current := StartOf(versions, head, planId);
    var seen: set<PlanId> := {};
    chain := [];
    while current.Some? && current.value.id !in seen
      invariant current.Some? ==> current.value in versions.Values
      invariant Ancestry(versions, head, planId) == chain + Chain(versions, current, seen)
      decreases IdsIn(versions) - seen
    {
      var parent := ParentOf(versions, current.value);
      ChainStep(versions, current.value, seen);
      Regroup(chain, [current.value], Chain(versions, parent, seen + {current.value.id}));
      chain := chain + [current.value];
      seen := seen + {current.value.id};
      current := parent;
    }
  }

  /** The version on file under the id, not empty, that the other names as its parent. */
  predicate IsParent(versions: Versions, child: Plan, parent: Plan) {
    && child.parentId.Some? && child.parentId.value != ""
    && child.parentId.value in versions && versions[child.parentId.value] == parent
  }

  /** On any store, even one with cyclic parents, the walk lists each version once, each next to its
      parent, and stops only where there is no parent on file or it was already listed. */
  lemma {:induction false} ChainFollowsParents(versions: Versions, current: Option<Plan>, seen: set<PlanId>)
    requires current.Some? ==> current.value in versions.Values
    ensures var c := Chain(versions, current, seen);
            && (forall i, j :: 0 <= i < j < |c| ==> c[i].id != c[j].id)
            && (forall i :: 0 <= i < |c| ==> c[i].id !in seen && c[i] in versions.Values)
            && (forall i :: 0 <= i < |c| - 1 ==> IsParent(versions, c[i], c[i + 1]))
            && (c != [] ==> Some(c[0]) == current)
            && (c != [] ==> forall next :: IsParent(versions, c[|c| - 1], next) ==>
                  next.id in seen || exists i :: 0 <= i < |c| && c[i].id == next.id)
    decreases IdsIn(versions) - seen
  {
    if current.Some? && current.value.id !in seen {
      StoredIdIsIn(versions, current.value);
      var parent, now := ParentOf(versions, current.value), seen + {current.value.id};
      ChainFollowsParents(versions, parent, now);
      var rest, c := Chain(versions, parent, now), Chain(versions, current, seen);
      assert c == [current.value] + rest;
      assert forall i :: 0 < i < |c| ==> c[i] == rest[i - 1];
      if rest == [] {
        assert c[0].id == current.value.id;
      } else {
        var next := ParentOf(versions, rest[|rest| - 1]);
        if next.Some? && next.value.id !in seen && next.value.id != current.value.id {
          var i :| 0 <= i < |rest| && rest[i].id == next.value.id;
          assert c[i + 1].id == next.value.id;
        }
      }
    }
  }

  function Reverse<T>(s: seq<T>): (r: seq<T>)
    ensures |r| == |s|
  {
    if s == [] then [] else [s[|s| - 1]] + Reverse(s[..|s| - 1])
  }

  /** `line` is a line of descent: filed under distinct, non-empty ids, each the parent of the next, the first of
      none. */
  ghost predicate Descent(versions: Versions, line: seq<Plan>) {
    && (forall i :: 0 <= i < |line| ==> line[i].id != "" && line[i].id in versions && versions[line[i].id] == line[i])
    && (forall i, j :: 0 <= i < j < |line| ==> line[i].id != line[j].id)
    && (line != [] ==> line[0].parentId.None?)
    && (forall i :: 0 < i < |line| ==> line[i].parentId == Some(line[i - 1].id))
  }

  /** Walking back from the end of a line of descent lists exactly the line, newest first. */
  lemma {:induction false} ChainOfDescent(versions: Versions, line: seq<Plan>, seen: set<PlanId>)
    requires Descent(versions, line) && line != []
    requires forall i :: 0 <= i < |line| ==> line[i].id !in seen
    ensures line[|line| - 1] in versions.Values
    ensures Chain(versions, Some(line[|line| - 1]), seen) == Reverse(line)
    decreases |line|
  {
    var n := |line| - 1;
    var last := line[n];
    assert versions[last.id] == last;
    StoredIdIsIn(versions, last);
    if n == 0 {
      assert ParentOf(versions, last).None?;
      assert line[..0] == [];
    } else {
      assert ParentOf(versions, last) == Some(line[..n][n - 1]);
      ChainOfDescent(versions, line[..n], seen + {last.id});
    }
  }

  /** The id a line of descent ends at. */
  function EndOf(line: seq<Plan>): Option<PlanId> { if line == [] then None else Some(line[|line| - 1].id) }

  lemma DescentIsTheAncestry(versions: Versions, head: Option<PlanId>, line: seq<Plan>)
    requires Descent(versions, line) && head == EndOf(line)
    ensures Ancestry(versions, head, None) == Reverse(line)
  {
    if line != [] {
      ChainOfDescent(versions, line, {});
    }
  }

  /** Asked of a version of the line, the walk starts there, wherever HEAD is. */
  lemma AncestryOfAVersion(versions: Versions, head: Option<PlanId>, line: seq<Plan>, i: nat)
    requires Descent(versions, line) && i < |line|
    ensures Ancestry(versions, head, Some(line[i].id)) == Reverse(line[..i + 1])
  {
    ChainOfDescent(versions, line[..i + 1], {});
  }

  // -------------------------------------------------------- single-writer stores

  datatype Outcome = Stored(plan: Plan) | Refused(expected: Option<PlanId>, actual: Option<PlanId>)

  datatype Stores = Stores(versions: Versions, head: Option<PlanId>)

  /** HEAD, if there is one, names a version filed under its own id. */
  predicate Consistent(s: Stores) {
    s.head.Some? ==> s.head.value in s.versions && s.versions[s.head.value].id == s.head.value
  }

  /** What the file store takes HEAD to be: the id inside the version HEAD names, if that is on file. */
  function FileHead(s: Stores): Option<PlanId> {
    if s.head.Some? && s.head.value in s.versions then Some(s.versions[s.head.value].id) else None
  }

  function FileCommit(s: Stores, plan: Plan, expected: Option<PlanId>): (Stores, Outcome) {
    var current := FileHead(s);
    if current != expected then (s, Refused(expected, current))
    else (Stores(s.versions[plan.id := plan], Some(plan.id)), Stored(plan))
  }

  function ObjectCommit(s: Stores, plan: Plan, expected: Option<PlanId>): (Stores, Outcome) {
    if s.head != expected then (s, Refused(expected, s.head))
    else if plan.id in s.versions && Content(s.versions[plan.id]) != Content(plan) then (s, Refused(expected, s.head))
    else
      var versions := if plan.id in s.versions then s.versions else s.versions[plan.id := plan];
      (Stores(versions, Some(plan.id)), Stored(plan))
  }

  /** The object store takes a commit exactly when HEAD has not moved and the id is new or its version decides the same;
      otherwise it changes nothing. A version on file stays as it is. */
  lemma ObjectCommitIff(s: Stores, plan: Plan, expected: Option<PlanId>)
    ensures var (after, outcome) := ObjectCommit(s, plan, expected);
            && (outcome == Stored(plan) <==>
                s.head == expected && (plan.id in s.versions ==> SameDecisions(s.versions[plan.id], plan)))
            && (outcome != Stored(plan) ==> after == s && outcome == Refused(expected, s.head))
            && (outcome == Stored(plan) ==>
                  && after.head == Some(plan.id)
                  && after.versions == if plan.id in s.versions then s.versions else s.versions[plan.id := plan])
  {
    if plan.id in s.versions {
      ContentIff(s.versions[plan.id], plan);
    }
  }

  /** A version on file is not moved to by a plan of other times. */
  lemma OtherTimesAreRefused(
    s: Stores, plan: Plan, expected: Option<PlanId>, date: Day, crewId: string, was: Route, now: Route, j: nat)
    requires plan.id in s.versions
    requires Keep(s.versions[plan.id].routes, OnKey(date, crewId)) == [was]
    requires Keep(plan.routes, OnKey(date, crewId)) == [now]
    requires j < |was.stops| && j < |now.stops|
    requires was.stops[j].arrival != now.stops[j].arrival || was.stops[j].departure != now.stops[j].departure
    ensures ObjectCommit(s, plan, expected) == (s, Refused(expected, s.head))
  {
    ObjectCommitIff(s, plan, expected);
    assert [was][0] == was && [now][0] == now;
    assert !SameOnKey(s.versions[plan.id], plan, date, crewId);
  }

  /** For a single writer the two stores agree exactly when the commit is refused as stale or its id is
      new, or the very same version is stored again: the file store overwrites, the object store does not. */
  lemma StoresAgreeIff(s: Stores, plan: Plan, expected: Option<PlanId>)
    requires Consistent(s)
    ensures FileCommit(s, plan, expected) == ObjectCommit(s, plan, expected) <==>
            s.head != expected || plan.id !in s.versions || s.versions[plan.id] == plan
  {
    if s.head == expected && plan.id in s.versions && s.versions[plan.id] != plan {
      assert FileCommit(s, plan, expected).0.versions[plan.id] == plan;
      assert ObjectCommit(s, plan, expected).0.versions[plan.id] == s.versions[plan.id];
    }
    if s.head == expected && plan.id in s.versions && s.versions[plan.id] == plan {
      assert s.versions[plan.id := plan] == s.versions;
    }
  }

  lemma CommitsStayConsistent(s: Stores, plan: Plan, expected: Option<PlanId>)
    requires Consistent(s) && (forall k :: k in s.versions ==> s.versions[k].id == k)
    ensures Consistent(FileCommit(s, plan, expected).0)
    ensures Consistent(ObjectCommit(s, plan, expected).0)
    ensures forall k :: k in ObjectCommit(s, plan, expected).0.versions ==>
              ObjectCommit(s, plan, expected).0.versions[k].id == k
    ensures forall k :: k in s.versions ==>
              && k in ObjectCommit(s, plan, expected).0.versions
              && ObjectCommit(s, plan, expected).0.versions[k] == s.versions[k]
  {
  }

  datatype Request = Request(plan: Plan, expected: Option<PlanId>)

  /** What a store holds, and has answered, after one commit request after another. */
  function FileRun(s: Stores, requests: seq<Request>): (Stores, seq<Outcome>)
    decreases |requests|
  {
    if requests == [] then (s, [])
    else
      var (next, outcome) := FileCommit(s, requests[0].plan, requests[0].expected);
      var (last, outcomes) := FileRun(next, requests[1..]);
      (last, [outcome] + outcomes)
  }

  function ObjectRun(s: Stores, requests: seq<Request>): (Stores, seq<Outcome>)
    decreases |requests|
  {
    if requests == [] then (s, [])
    else
      var (next, outcome) := ObjectCommit(s, requests[0].plan, requests[0].expected);
      var (last, outcomes) := ObjectRun(next, requests[1..]);
      (last, [outcome] + outcomes)
  }

  /** Each request brings an id no version had before it. */
  predicate FreshRequests(versions: Versions, requests: seq<Request>) {
    && (forall i :: 0 <= i < |requests| ==> requests[i].plan.id !in versions)
    && (forall i, j :: 0 <= i < j < |requests| ==> requests[i].plan.id != requests[j].plan.id)
  }

  /** Over any sequence of commits under fresh ids, stale ones among them, the two stores hold the same
      versions and the same HEAD and give the same answers throughout. */
  lemma {:induction false} StoresStayEqual(s: Stores, requests: seq<Request>)
    requires Consistent(s) && forall k :: k in s.versions ==> s.versions[k].id == k
    requires FreshRequests(s.versions, requests)
    ensures FileRun(s, requests) == ObjectRun(s, requests)
    decreases |requests|
  {
    if requests != [] {
      var plan, expected := requests[0].plan, requests[0].expected;
      StoresAgreeIff(s, plan, expected);
      CommitsStayConsistent(s, plan, expected);
      StoresStayEqual(FileCommit(s, plan, expected).0, requests[1..]);
    }
  }

  /** Versions in files and a HEAD file replaced last. */
  class JsonPlanStore {
    var versions: Versions
    var headFile: Option<PlanId>

    function View(): Stores
      reads this
    {
      Stores(versions, headFile)
    }

    constructor ()
      ensures View() == Stores(map[], None)
    {
      versions, headFile := map[], None;
    }

    method Head() returns (plan: Option<Plan>)
      ensures plan == if headFile.Some? then Get(versions, headFile.value) else None
    {
      if headFile.None? {
        return None;
      }
      return Get(versions, headFile.value);
    }

    method Commit(plan: Plan, expected: Option<PlanId>) returns (outcome: Outcome)
      modifies this
      ensures (View(), outcome) == FileCommit(old(View()), plan, expected)
    {
      var current := Head();
      var currentId := if current.Some? then Some(current.value.id) else None;
      if currentId != expected {
        return Refused(expected, currentId);
      }
      versions := versions[plan.id := plan];
      headFile := Some(plan.id);
      return Stored(plan);
    }
  }

  /** Versions as objects written once, and a HEAD object moved by conditional write. */
  class S3PlanStore {
    var versions: Versions
    var head: Option<PlanId>
    var tag: nat

    function View(): Stores
      reads this
    {
      Stores(versions, head)
    }

    constructor ()
      ensures View() == Stores(map[], None)
    {
      versions, head, tag := map[], None, 0;
    }

    /** `If-None-Match: *` on a version object. */
    method PutVersion(plan: Plan) returns (accepted: bool)
      modifies this`versions
      ensures accepted <==> plan.id !in old(versions)
      ensures versions == if accepted then old(versions)[plan.id := plan] else old(versions)
    {
      accepted := plan.id !in versions;
      if accepted {
        versions := versions[plan.id := plan];
      }
    }

    /** `If-Match` on the tag read, or `If-None-Match: *` when there was no HEAD. */
    method PutHead(id: PlanId, condition: Option<nat>) returns (accepted: bool)
      modifies this`head, this`tag
      ensures accepted <==>
                (if condition.Some? then old(head).Some? && old(tag) == condition.value else old(head).None?)
      ensures head == if accepted then Some(id) else old(head)
      ensures !accepted ==> tag == old(tag)
    {
      accepted := if condition.Some? then head.Some? && tag == condition.value else head.None?;
      if accepted {
        head, tag := Some(id), tag + 1;
      }
    }

    method Commit(plan: Plan, expected: Option<PlanId>) returns (outcome: Outcome)
      modifies this
      ensures (View(), outcome) == ObjectCommit(old(View()), plan, expected)
      ensures outcome == Stored(plan) <==>
                && old(head) == expected
                && (plan.id in old(versions) ==> SameDecisions(old(versions)[plan.id], plan))
    {
      ObjectCommitIff(View(), plan, expected);
      var currentId := head;
      var condition := if head.Some? then Some(tag) else None;
      if currentId != expected {
        return Refused(expected, currentId);
      }
      var wrote := PutVersion(plan);
      if !wrote {
        if Content(versions[plan.id]) != Content(plan) {
          return Refused(expected, currentId);
        }
      }
      var moved := PutHead(plan.id, condition);
      if !moved {
        return Refused(expected, head);
      }
      return Stored(plan);
    }
  }
}
