/** What folding the log guarantees: order does not matter, replay composes, the past is fixed, and the
    world says about outages, overtime and late shifts exactly what the log does (domain/state.py). */
module FoldLaws {
  import opened Collections
  import opened Domain
  import opened EventFold

  // ----------------------------------------------------------- order and replay

  /** Recorded moment and id identify an event. */
  ghost predicate Identified(events: seq<Event>) {
    forall e, f :: e in events && f in events && e.recordedAt == f.recordedAt && e.id == f.id ==> e == f
  }

  lemma RecordedByMembers(events: seq<Event>, asOf: Option<Moment>)
    ensures forall e :: e in RecordedBy(events, asOf) <==> e in events && (asOf.None? || e.recordedAt <= asOf.value)
    ensures forall e :: multiset(RecordedBy(events, asOf))[e]
              == if asOf.None? || e.recordedAt <= asOf.value then multiset(events)[e] else 0
  {
    if events != [] {
      var n := |events| - 1;
      RecordedByMembers(events[..n], asOf);
      assert events == events[..n] + [events[n]];
    }
  }

  lemma {:induction false} RecordedBySorted(events: seq<Event>, asOf: Option<Moment>)
    requires SortedBy(events, EventLe)
    ensures SortedBy(RecordedBy(events, asOf), EventLe)
  {
    if events != [] {
      var n := |events| - 1;
      RecordedBySorted(events[..n], asOf);
      RecordedByMembers(events[..n], asOf);
      var rest := RecordedBy(events[..n], asOf);
      forall i | 0 <= i < |rest| ensures EventLe(rest[i], events[n]) {
        assert rest[i] in rest && rest[i] in events[..n];
        var j :| 0 <= j < n && events[..n][j] == rest[i];
        assert EventLe(events[j], events[n]);
      }
    }
  }

  function ByThen(asOf: Option<Moment>): Event -> bool {
    (e: Event) => asOf.None? || e.recordedAt <= asOf.value
  }

  lemma {:induction false} RecordedIsKept(events: seq<Event>, asOf: Option<Moment>)
    ensures RecordedBy(events, asOf) == Keep(events, ByThen(asOf))
    decreases |events|
  {
    if events != [] {
      var n := |events| - 1;
      RecordedIsKept(events[..n], asOf);
      assert events == events[..n] + [events[n]];
      KeepJoin(events[..n], [events[n]], ByThen(asOf));
      assert [events[n]][1..] == [];
    }
  }

  /** Filtering the sorted log is sorting the filtered one: the sort is stable. */
  lemma KnownIsSortedRecord(events: seq<Event>, asOf: Option<Moment>)
    ensures Known(events, asOf) == Sort(RecordedBy(events, asOf), EventLe)
  {
    EventLeIsPreorder();
    RecordedIsKept(Sort(events, EventLe), asOf);
    RecordedIsKept(events, asOf);
    KeepSort(events, EventLe, ByThen(asOf));
  }

  /** Learned earlier, or at the same moment under the smaller id. */
  predicate InTurn(events: seq<Event>) {
    forall i, j :: 0 <= i < j < |events| ==>
      || events[i].recordedAt < events[j].recordedAt
      || (events[i].recordedAt == events[j].recordedAt && StringLe(events[i].id, events[j].id))
  }

  /** What is known at a moment is every event recorded by then, as often as the log lists it, in turn. */
  lemma KnownIsTheRecordInTurn(events: seq<Event>, asOf: Option<Moment>)
    ensures InTurn(Known(events, asOf))
    ensures forall e :: multiset(Known(events, asOf))[e]
              == if asOf.None? || e.recordedAt <= asOf.value then multiset(events)[e] else 0
  {
    var sorted := Sort(events, EventLe);
    EventLeIsPreorder();
    SortSorts(events, EventLe);
    SortKeeps(events, EventLe);
    RecordedBySorted(sorted, asOf);
    RecordedByMembers(sorted, asOf);
  }

  lemma SameRecord(xs: seq<Event>, ys: seq<Event>, asOf: Option<Moment>)
    requires forall e: Event :: asOf.None? || e.recordedAt <= asOf.value ==> multiset(xs)[e] == multiset(ys)[e]
    ensures multiset(RecordedBy(xs, asOf)) == multiset(RecordedBy(ys, asOf))
  {
    RecordedByMembers(xs, asOf);
    RecordedByMembers(ys, asOf);
    var a, b := RecordedBy(xs, asOf), RecordedBy(ys, asOf);
    forall e ensures multiset(a)[e] == multiset(b)[e] {}
  }

  /** Events with distinct moments and ids sort in one way only. */
  lemma IdentifiedSortAlike(a: seq<Event>, b: seq<Event>)
    requires Identified(a) && multiset(a) == multiset(b)
    ensures Sort(a, EventLe) == Sort(b, EventLe)
  {
    EventLeIsPreorder();
    SortKeeps(a, EventLe);
    SortKeeps(b, EventLe);
    SortSorts(a, EventLe);
    SortSorts(b, EventLe);
    forall x, y | x in Sort(a, EventLe) && y in Sort(a, EventLe) && EventLe(x, y) && EventLe(y, x) ensures x == y {
      StringLeTotal(x.id, y.id);
    }
    SortedIsUnique(Sort(a, EventLe), Sort(b, EventLe), EventLe);
  }

  /** What is known at a moment depends only on which events were recorded by then. */
  lemma KnownIsCanonical(xs: seq<Event>, ys: seq<Event>, asOf: Option<Moment>)
    requires Identified(RecordedBy(xs, asOf))
    requires forall e: Event :: asOf.None? || e.recordedAt <= asOf.value ==> multiset(xs)[e] == multiset(ys)[e]
    ensures Known(xs, asOf) == Known(ys, asOf)
  {
    SameRecord(xs, ys, asOf);
    IdentifiedSortAlike(RecordedBy(xs, asOf), RecordedBy(ys, asOf));
    KnownIsSortedRecord(xs, asOf);
    KnownIsSortedRecord(ys, asOf);
  }

  /** The fold depends only on the set of events known, not on the order in which the log lists them. */
  lemma FoldIgnoresOrder(xs: seq<Event>, ys: seq<Event>, asOf: Option<Moment>)
    requires Identified(RecordedBy(xs, asOf)) && multiset(xs) == multiset(ys)
    ensures Fold(xs, asOf) == Fold(ys, asOf)
  {
    KnownIsCanonical(xs, ys, asOf);
  }

  /** Listing the log in another order never changes what is known, or when. */
  ghost predicate OrderHidden(xs: seq<Event>, asOf: Option<Moment>) {
    forall ys :: multiset(ys) == multiset(xs) ==> Known(ys, asOf) == Known(xs, asOf)
  }

  function SameKey(e: Event): Event -> bool {
    (g: Event) => g.recordedAt == e.recordedAt && g.id == e.id
  }

  /** Of the events that share a moment and an id, the first listed is the first known. */
  lemma TiesKeepTheirOrder(e: Event, f: Event, rest: seq<Event>, asOf: Option<Moment>)
    requires ByThen(asOf)(e) && ByThen(asOf)(f)
    ensures var tied := Keep(Known([e, f] + rest, asOf), SameKey(e)); tied != [] && tied[0] == e
  {
    var log := [e, f] + rest;
    KnownIsSortedRecord(log, asOf);
    RecordedIsKept(log, asOf);
    var kept := Keep(log, ByThen(asOf));
    assert log[0] == e && kept == [e] + Keep(log[1..], ByThen(asOf));
    EventLeIsPreorder();
    KeepSort(kept, EventLe, SameKey(e));
    var tied := Keep(kept, SameKey(e));
    assert tied == [e] + Keep(kept[1..], SameKey(e));
    KeepMembers(kept, SameKey(e));
    forall i, j | 0 <= i < |tied| && 0 <= j < |tied| ensures EventLe(tied[i], tied[j]) {
      assert tied[i] in tied && tied[j] in tied;
      StringLeTotal(e.id, e.id);
    }
    SortOfTies(tied, EventLe);
  }

  lemma BringForward(xs: seq<Event>, e: Event, f: Event) returns (rest: seq<Event>)
    requires e in xs && f in xs && e != f
    ensures multiset([e, f] + rest) == multiset(xs) && multiset([f, e] + rest) == multiset(xs)
  {
    var less := RemoveOne(xs, e);
    assert f in multiset([e] + less);
    assert f in less;
    rest := RemoveOne(less, f);
    assert [e] + ([f] + rest) == [e, f] + rest;
    assert multiset([e] + ([f] + rest)) == multiset{e} + multiset([f] + rest);
    assert multiset([e] + less) == multiset{e} + multiset(less);
  }

  lemma TiesShow(e: Event, f: Event, rest: seq<Event>, asOf: Option<Moment>)
    requires ByThen(asOf)(e) && ByThen(asOf)(f)
    requires e.recordedAt == f.recordedAt && e.id == f.id && e != f
    ensures Known([e, f] + rest, asOf) != Known([f, e] + rest, asOf)
  {
    TiesKeepTheirOrder(e, f, rest, asOf);
    TiesKeepTheirOrder(f, e, rest, asOf);
    SameKeyFor(e, f);
  }

  lemma SameKeyFor(e: Event, f: Event)
    requires e.recordedAt == f.recordedAt && e.id == f.id
    ensures forall s :: Keep(s, SameKey(e)) == Keep(s, SameKey(f))
  {
    forall s ensures Keep(s, SameKey(e)) == Keep(s, SameKey(f)) {
      KeepAlike(s, SameKey(e), SameKey(f));
    }
  }

  lemma {:induction false} KeepAlike(s: seq<Event>, p: Event -> bool, q: Event -> bool)
    requires forall g :: p(g) == q(g)
    ensures Keep(s, p) == Keep(s, q)
  {
    if s != [] {
      KeepAlike(s[1..], p, q);
    }
  }

  lemma SharedKeysShow(xs: seq<Event>, e: Event, f: Event, asOf: Option<Moment>)
    requires e in RecordedBy(xs, asOf) && f in RecordedBy(xs, asOf)
    requires e.recordedAt == f.recordedAt && e.id == f.id && e != f
    ensures !OrderHidden(xs, asOf)
  {
    RecordedHas(xs, asOf, e);
    RecordedHas(xs, asOf, f);
    var rest := BringForward(xs, e, f);
    TiesShow(e, f, rest, asOf);
    TellsApart(xs, [e, f] + rest, [f, e] + rest, asOf);
  }

  lemma RecordedHas(events: seq<Event>, asOf: Option<Moment>, e: Event)
    requires e in RecordedBy(events, asOf)
    ensures e in events && ByThen(asOf)(e)
  {
    RecordedByMembers(events, asOf);
  }

  lemma TellsApart(xs: seq<Event>, ys: seq<Event>, zs: seq<Event>, asOf: Option<Moment>)
    requires multiset(ys) == multiset(xs) && multiset(zs) == multiset(xs) && Known(ys, asOf) != Known(zs, asOf)
    ensures !OrderHidden(xs, asOf)
  {
    assert OrderHidden(xs, asOf) ==> Known(ys, asOf) == Known(xs, asOf);
  }

  /** Exactly when the order of the log is hidden: among the events known, moment and id identify each. */
  lemma OrderHiddenIff(xs: seq<Event>, asOf: Option<Moment>)
    ensures OrderHidden(xs, asOf) <==> Identified(RecordedBy(xs, asOf))
  {
    if Identified(RecordedBy(xs, asOf)) {
      forall ys | multiset(ys) == multiset(xs) ensures Known(ys, asOf) == Known(xs, asOf) {
        KnownIsCanonical(xs, ys, asOf);
      }
    } else {
      forall e, f | e in RecordedBy(xs, asOf) && f in RecordedBy(xs, asOf) && e.recordedAt == f.recordedAt
        && e.id == f.id && e != f
        ensures !OrderHidden(xs, asOf)
      {
        SharedKeysShow(xs, e, f, asOf);
      }
    }
  }

  lemma TwoCommits(a: Event, b: Event)
    requires Sort([a, b], EventLe) == [a, b] && b.what.PlanCommitted?
    ensures Fold([a, b], None).committedPlan == Some(b.what.planId)
  {
    var log := [a, b];
    assert log[..1] == [a] && [a][..0] == [];
    assert RecordedBy([a], None) == [a];
    assert RecordedBy(log, None) == [a] + [b];
  }

  lemma TiedPair(a: Event, b: Event)
    requires a.id == b.id && a.recordedAt == b.recordedAt
    ensures Sort([a, b], EventLe) == [a, b]
  {
    StringLeTotal(a.id, b.id);
    SortOfTies([a, b], EventLe);
  }

  /** When two events share a moment and an id, the order in which the log lists them can reach the world. */
  lemma SharedIdsExposeOrder(a: Event, b: Event)
    requires a.id == b.id && a.recordedAt == b.recordedAt
    requires a.what.PlanCommitted? && b.what.PlanCommitted? && a.what.planId != b.what.planId
    ensures multiset([a, b]) == multiset([b, a]) && Fold([a, b], None) != Fold([b, a], None)
  {
    TiedPair(a, b);
    TiedPair(b, a);
    TwoCommits(a, b);
    TwoCommits(b, a);
  }

  /** The world at a moment is decided by what was recorded by then, as listed; nothing else in the log
      matters, duplicate ids included. */
  lemma RecordDecidesThePast(xs: seq<Event>, ys: seq<Event>, asOf: Option<Moment>)
    requires RecordedBy(xs, asOf) == RecordedBy(ys, asOf)
    ensures Fold(xs, asOf) == Fold(ys, asOf)
  {
    KnownIsSortedRecord(xs, asOf);
    KnownIsSortedRecord(ys, asOf);
  }

  /** Nothing recorded after a moment changes what was known at it. */
  lemma LaterEventsLeaveThePast(xs: seq<Event>, later: seq<Event>, t: Moment)
    requires forall e :: e in later ==> e.recordedAt > t
    ensures Fold(xs + later, Some(t)) == Fold(xs, Some(t))
  {
    RecordedIsKept(xs + later, Some(t));
    RecordedIsKept(xs, Some(t));
    KeepJoin(xs, later, ByThen(Some(t)));
    KeepNothing(later, ByThen(Some(t)));
    RecordDecidesThePast(xs + later, xs, Some(t));
  }

  lemma {:induction false} ReplayConcat(w: World, a: seq<Event>, b: seq<Event>)
    ensures Replay(w, a + b) == Replay(Replay(w, a), b)
  {
    if b == [] {
      assert a + b == a;
    } else {
      var n := |b| - 1;
      assert (a + b)[..|a + b| - 1] == a + b[..n];
      ReplayConcat(w, a, b[..n]);
    }
  }

  /** Events never look at the clock or the counter. */
  lemma {:induction false} ReplayKeepsTheClock(w: World, events: seq<Event>, t: Moment, n: nat)
    ensures Replay(w.(asOf := t, appliedEvents := n), events) == Replay(w, events).(asOf := t, appliedEvents := n)
  {
    if events != [] {
      ReplayKeepsTheClock(w, events[..|events| - 1], t, n);
      ApplyKeepsTheClock(Replay(w, events[..|events| - 1]), events[|events| - 1], t, n);
    }
  }

  lemma ApplyKeepsTheClock(w: World, e: Event, t: Moment, n: nat)
    ensures Apply(w.(asOf := t, appliedEvents := n), e) == Apply(w, e).(asOf := t, appliedEvents := n)
  {
    if e.what.DepotMoved? {
      assert Apply(w.(asOf := t, appliedEvents := n), e).vans == Apply(w, e).vans;
    }
  }

  /** The events learned after `t1` and no later than `t2`, in order. */
  function Learned(events: seq<Event>, t1: Moment, t2: Moment): seq<Event> {
    var known := Known(events, Some(t2));
    var earlier := |Known(events, Some(t1))|;
    if earlier <= |known| then known[earlier..] else []
  }

  /** `early` is the part of `all` recorded no later than `t1`; the rest came by `t2`. */
  ghost predicate EarlierPart(early: seq<Event>, all: seq<Event>, t1: Moment, t2: Moment) {
    early <= all && forall i :: |early| <= i < |all| ==> t1 < all[i].recordedAt <= t2
  }

  lemma {:induction false} EarlierIsPrefix(ordered: seq<Event>, t1: Moment, t2: Moment)
    requires SortedBy(ordered, EventLe) && t1 <= t2
    ensures EarlierPart(RecordedBy(ordered, Some(t1)), RecordedBy(ordered, Some(t2)), t1, t2)
  {
    if ordered != [] {
      var n := |ordered| - 1;
      var body, last := ordered[..n], ordered[n];
      EarlierIsPrefix(body, t1, t2);
      if last.recordedAt <= t1 {
        AllEarly(body, last, t1, t2);
      }
    }
  }

  /** Before an event learned by `t1`, everything was. */
  lemma AllEarly(body: seq<Event>, last: Event, t1: Moment, t2: Moment)
    requires SortedBy(body + [last], EventLe) && last.recordedAt <= t1 <= t2
    requires EarlierPart(RecordedBy(body, Some(t1)), RecordedBy(body, Some(t2)), t1, t2)
    ensures RecordedBy(body, Some(t1)) == RecordedBy(body, Some(t2))
  {
    var early, all := RecordedBy(body, Some(t1)), RecordedBy(body, Some(t2));
    RecordedByMembers(body, Some(t2));
    forall i | 0 <= i < |all| ensures all[i].recordedAt <= t1 {
      assert all[i] in all && all[i] in body;
      var j :| 0 <= j < |body| && body[j] == all[i];
      assert EventLe((body + [last])[j], (body + [last])[|body|]);
    }
    assert all != [] ==> all[|all| - 1].recordedAt <= t1;
  }

  /** Replay composes: the world at `t2` is the world at `t1` with what was learned in between applied. */
  lemma ReplayComposes(events: seq<Event>, t1: Moment, t2: Moment)
    requires t1 <= t2
    ensures forall e :: e in Learned(events, t1, t2) ==> e in events && t1 < e.recordedAt <= t2
    ensures Fold(events, Some(t2))
         == Replay(Fold(events, Some(t1)), Learned(events, t1, t2))
            .(asOf := t2, appliedEvents := |Known(events, Some(t2))|)
  {
    var early, all, late := Known(events, Some(t1)), Known(events, Some(t2)), Learned(events, t1, t2);
    KnownSplits(events, t1, t2);
    LearnedIsListed(events, t1, t2);
    ReplayInTwo(early, late, t1, t2);
  }

  lemma LaterPart(early: seq<Event>, all: seq<Event>, t1: Moment, t2: Moment, e: Event)
    requires EarlierPart(early, all, t1, t2) && e in all[|early|..]
    ensures e in all && t1 < e.recordedAt <= t2
  {
    var i :| 0 <= i < |all| - |early| && all[|early|..][i] == e;
    assert all[|early| + i] == e;
  }

  lemma KnownSplits(events: seq<Event>, t1: Moment, t2: Moment)
    requires t1 <= t2
    ensures EarlierPart(Known(events, Some(t1)), Known(events, Some(t2)), t1, t2)
    ensures Known(events, Some(t2)) == Known(events, Some(t1)) + Learned(events, t1, t2)
  {
    EventLeIsPreorder();
    SortSorts(events, EventLe);
    EarlierIsPrefix(Sort(events, EventLe), t1, t2);
  }

  lemma LearnedIsListed(events: seq<Event>, t1: Moment, t2: Moment)
    requires t1 <= t2
    ensures forall e :: e in Learned(events, t1, t2) ==> e in events && t1 < e.recordedAt <= t2
  {
    KnownSplits(events, t1, t2);
    forall e | e in Learned(events, t1, t2) ensures e in events && t1 < e.recordedAt <= t2 {
      LaterPart(Known(events, Some(t1)), Known(events, Some(t2)), t1, t2, e);
      KnownIsListed(events, Some(t2), e);
    }
  }

  lemma KnownIsListed(events: seq<Event>, asOf: Option<Moment>, e: Event)
    requires e in Known(events, asOf)
    ensures e in events
  {
    RecordedHas(Sort(events, EventLe), asOf, e);
    SortKeeps(events, EventLe);
  }

  lemma ReplayInTwo(early: seq<Event>, late: seq<Event>, t1: Moment, t2: Moment)
    ensures Replay(Empty(t2), early + late).(appliedEvents := |early + late|)
         == Replay(Replay(Empty(t1), early).(appliedEvents := |early|), late)
            .(asOf := t2, appliedEvents := |early + late|)
  {
    var world := Replay(Empty(t1), early);
    ReplayKeepsTheClock(Empty(t1), early + late, t2, 0);
    ReplayConcat(Empty(t1), early, late);
    assert Empty(t2) == Empty(t1).(asOf := t2, appliedEvents := 0);
    ReplayKeepsTheClock(world, late, world.asOf, |early|);
    assert world.(appliedEvents := |early|) == world.(asOf := world.asOf, appliedEvents := |early|);
  }

  // ------------------------------------------------------------------ filing

  lemma {:induction false} ReplayKeepsFiling(w: World, events: seq<Event>)
    requires WellKeyed(w)
    ensures WellKeyed(Replay(w, events))
  {
    if events != [] {
      ReplayKeepsFiling(w, events[..|events| - 1]);
      ApplyKeepsFiling(Replay(w, events[..|events| - 1]), events[|events| - 1]);
    }
  }

  lemma ApplyKeepsFiling(w: World, e: Event)
    requires WellKeyed(w)
    ensures WellKeyed(Apply(w, e))
  {
  }

  /** Every world the log folds to files its records under their own ids. */
  lemma FoldIsWellKeyed(events: seq<Event>, asOf: Option<Moment>)
    ensures WellKeyed(Fold(events, asOf))
  {
    var known := Known(events, asOf);
    ReplayKeepsFiling(Empty(ResolvedAsOf(known, asOf)), known);
  }

  // ---------------------------------------------------------------- availability

  datatype Kind = AWorker | AVan

  /** What an event says of one resource's outages. */
  datatype Word =
    | Down(from: Moment, until: Option<Moment>)
    | Back(from: Moment, until: Option<Moment>)
    | Gone
    | Silent

  function WordOn(kind: Kind, id: string, e: Event): Word {
    match e.what
    case WorkerUnavailable(w, from, until, _) => if kind.AWorker? && w == id then Down(from, until) else Silent
    case WorkerRestored(w, start, end) =>
      if kind.AWorker? && w == id then Back(if start.Some? then start.value else e.occurredAt, end) else Silent
    case WorkerRemoved(w) => if kind.AWorker? && w == id then Gone else Silent
    case VanUnavailable(v, from, until, _) => if kind.AVan? && v == id then Down(from, until) else Silent
    case VanRestored(v, start, end) =>
      if kind.AVan? && v == id then Back(if start.Some? then start.value else e.occurredAt, end) else Silent
    case VanRemoved(v) => if kind.AVan? && v == id then Gone else Silent
    case _ => Silent
  }

  function OutagesOf(kind: Kind, w: World, id: string): seq<Unavailability> {
    if kind.AWorker? then WorkerOutages(w, id) else VanOutages(w, id)
  }

  /** Whether the last word the log has on a moment is that the resource is out. */
  predicate IsOut(kind: Kind, id: string, events: seq<Event>, m: Moment) {
    if events == [] then false
    else
      match WordOn(kind, id, events[|events| - 1])
      case Down(from, until) => InWindow(m, from, until) || IsOut(kind, id, events[..|events| - 1], m)
      case Back(from, until) => !InWindow(m, from, until) && IsOut(kind, id, events[..|events| - 1], m)
      case Gone => false
      case Silent => IsOut(kind, id, events[..|events| - 1], m)
  }

  lemma OneEventOnOutages(kind: Kind, id: string, w: World, e: Event, m: Moment)
    ensures Covered(OutagesOf(kind, Apply(w, e), id), m) <==>
              match WordOn(kind, id, e)
              case Down(from, until) => InWindow(m, from, until) || Covered(OutagesOf(kind, w, id), m)
              case Back(from, until) => !InWindow(m, from, until) && Covered(OutagesOf(kind, w, id), m)
              case Gone => false
              case Silent => Covered(OutagesOf(kind, w, id), m)
  {
    var before, after := OutagesOf(kind, w, id), OutagesOf(kind, Apply(w, e), id);
    match WordOn(kind, id, e) {
      case Down(from, until) =>
        var o := after[|after| - 1];
        assert after == before + [o] && o.from == from && o.until == until;
        CoveredConcat(before, [o], m);
        assert Covered([o], m) <==> InWindow(m, from, until) by { assert [o][0] == o; }
      case Back(from, until) =>
        CarveSubtracts(before, from, until, m);
        assert after == Carve(before, from, until);
      case Gone => assert after == [];
      case Silent => assert after == before;
    }
  }

  lemma {:induction false} OutagesFollowTheLog(kind: Kind, id: string, t: Moment, events: seq<Event>, m: Moment)
    ensures Covered(OutagesOf(kind, Replay(Empty(t), events), id), m) <==> IsOut(kind, id, events, m)
  {
    if events != [] {
      var n := |events| - 1;
      OutagesFollowTheLog(kind, id, t, events[..n], m);
      OneEventOnOutages(kind, id, Replay(Empty(t), events[..n]), events[n], m);
    }
  }

  /** Recorded outages end after they begin. */
  ghost predicate RealOutages(events: seq<Event>) {
    forall i, kind, id :: 0 <= i < |events| ==>
      var word := WordOn(kind, id, events[i]);
      word.Down? && word.until.Some? ==> word.from < word.until.value
  }

  /** No run of outages and restores ever leaves an outage that ends before it begins. */
  lemma {:induction false} OutagesStayReal(kind: Kind, id: string, t: Moment, events: seq<Event>)
    requires RealOutages(events)
    ensures AllReal(OutagesOf(kind, Replay(Empty(t), events), id))
  {
    if events != [] {
      var n := |events| - 1;
      OutagesStayReal(kind, id, t, events[..n]);
      var word := WordOn(kind, id, events[n]);
      assert word.Down? && word.until.Some? ==> word.from < word.until.value;
      OneEventKeepsReal(kind, id, Replay(Empty(t), events[..n]), events[n]);
    }
  }

  lemma OneEventKeepsReal(kind: Kind, id: string, w: World, e: Event)
    requires AllReal(OutagesOf(kind, w, id))
    requires var word := WordOn(kind, id, e); word.Down? && word.until.Some? ==> word.from < word.until.value
    ensures AllReal(OutagesOf(kind, Apply(w, e), id))
  {
    var before, after := OutagesOf(kind, w, id), OutagesOf(kind, Apply(w, e), id);
    match WordOn(kind, id, e) {
      case Down(from, until) => assert after == before + [after[|after| - 1]];
      case Back(from, until) =>
        CarveKeepsReal(before, from, until);
        assert after == Carve(before, from, until);
      case Gone => assert after == [];
      case Silent => assert after == before;
    }
  }

  /** The event reports the resource out for this reason, over a stretch that holds the whole outage. */
  predicate Reports(kind: Kind, id: string, e: Event, o: Unavailability) {
    match e.what
    case WorkerUnavailable(w, from, until, reason) => kind.AWorker? && w == id && IsPart(o, from, until, reason)
    case VanUnavailable(v, from, until, reason) => kind.AVan? && v == id && IsPart(o, from, until, reason)
    case _ => false
  }

  predicate IsPart(o: Unavailability, from: Moment, until: Option<Moment>, reason: string) {
    && o.reason == reason
    && from <= o.from
    && (until.Some? ==> o.until.Some? && o.until.value <= until.value)
  }

  predicate IsReported(kind: Kind, id: string, events: seq<Event>, o: Unavailability) {
    exists i :: 0 <= i < |events| && Reports(kind, id, events[i], o)
  }

  /** Every outage on file is part of one that was reported, with the reason given then: carving makes
      nothing up and attributes nothing to another cause. */
  lemma {:induction false} EveryOutageWasReported(kind: Kind, id: string, t: Moment, events: seq<Event>)
    ensures forall o :: o in OutagesOf(kind, Replay(Empty(t), events), id) ==> IsReported(kind, id, events, o)
  {
    if events != [] {
      var n := |events| - 1;
      EveryOutageWasReported(kind, id, t, events[..n]);
      var before := OutagesOf(kind, Replay(Empty(t), events[..n]), id);
      forall o | o in OutagesOf(kind, Replay(Empty(t), events), id) ensures IsReported(kind, id, events, o) {
        OutageCameFrom(kind, id, Replay(Empty(t), events[..n]), events[n], o);
        if Reports(kind, id, events[n], o) {
        } else {
          var whole :| whole in before && IsPart(o, whole.from, whole.until, whole.reason);
          var i :| 0 <= i < n && Reports(kind, id, events[..n][i], whole);
          assert Reports(kind, id, events[i], o);
        }
      }
    }
  }

  /** An outage on file after an event is what the event reports, or part of one on file before. */
  lemma OutageCameFrom(kind: Kind, id: string, w: World, e: Event, o: Unavailability)
    requires o in OutagesOf(kind, Apply(w, e), id)
    ensures Reports(kind, id, e, o) ||
            exists whole :: whole in OutagesOf(kind, w, id) && IsPart(o, whole.from, whole.until, whole.reason)
  {
    var before, after := OutagesOf(kind, w, id), OutagesOf(kind, Apply(w, e), id);
    match WordOn(kind, id, e) {
      case Down(from, until) => assert after == before + [after[|after| - 1]];
      case Back(from, until) =>
        assert after == Carve(before, from, until);
        CarvedFrom(before, from, until, o);
      case Gone =>
      case Silent => assert after == before;
    }
  }

  lemma {:induction false} CarvedFrom(outages: seq<Unavailability>, start: Moment, end: Option<Moment>,
                                      o: Unavailability)
    requires o in Carve(outages, start, end)
    ensures exists whole :: whole in outages && IsPart(o, whole.from, whole.until, whole.reason)
  {
    var n := |outages| - 1;
    if o in CarveOne(outages[n], start, end) {
      assert outages[n] in outages && IsPart(o, outages[n].from, outages[n].until, outages[n].reason);
    } else {
      CarvedFrom(outages[..n], start, end, o);
    }
  }

  ghost predicate ClearOf(outages: seq<Unavailability>, start: Moment, end: Moment) {
    forall m :: start <= m < end ==> !Covered(outages, m)
  }

  /** For every moment of the interval, the log's last word is not that the resource is out. */
  predicate NeverOut(kind: Kind, id: string, events: seq<Event>, start: Moment, end: Moment) {
    forall m :: start <= m < end ==> !IsOut(kind, id, events, m)
  }

  /** For outages that end after they begin, the query on an interval agrees with looking at each moment. */
  lemma CoversPointwise(outages: seq<Unavailability>, start: Moment, end: Moment)
    requires AllReal(outages) && start < end
    ensures NoneCovers(outages, start, end) <==> ClearOf(outages, start, end)
  {
    if !NoneCovers(outages, start, end) {
      var i :| 0 <= i < |outages| && Covers(outages[i], start, end);
      var m := Max(start, outages[i].from);
      assert Spans(outages[i], m);
      assert Covered(outages, m);
    }
    if m :| start <= m < end && Covered(outages, m) {
      var i :| 0 <= i < |outages| && Spans(outages[i], m);
      assert Covers(outages[i], start, end);
    }
  }

  predicate OnRoster(kind: Kind, w: World, id: string) {
    if kind.AWorker? then id in w.workers else id in w.vans
  }

  predicate IsAvailable(kind: Kind, w: World, id: string, start: Moment, end: Moment) {
    if kind.AWorker? then IsWorkerAvailable(w, id, start, end) else IsVanAvailable(w, id, start, end)
  }

  /** Over any run of outages, restores and removals: a rostered worker or van is available for a
      non-empty interval exactly when the log's last word on no moment of it is that it is out. */
  lemma AvailabilityFollowsTheLog(kind: Kind, id: string, t: Moment, events: seq<Event>, start: Moment, end: Moment)
    requires RealOutages(events) && start < end
    ensures var w := Replay(Empty(t), events);
            IsAvailable(kind, w, id, start, end) <==>
            OnRoster(kind, w, id) && NeverOut(kind, id, events, start, end)
  {
    var w := Replay(Empty(t), events);
    var outages := OutagesOf(kind, w, id);
    assert IsAvailable(kind, w, id, start, end) <==> OnRoster(kind, w, id) && NoneCovers(outages, start, end);
    OutagesStayReal(kind, id, t, events);
    CoversPointwise(outages, start, end);
    forall m ensures Covered(outages, m) <==> IsOut(kind, id, events, m) {
      OutagesFollowTheLog(kind, id, t, events, m);
    }
    assert ClearOf(outages, start, end) <==> NeverOut(kind, id, events, start, end);
  }

  // ------------------------------------------------------------------- overtime

  predicate Offers(e: Event, job: JobId) { e.what.OvertimeOffered? && e.what.jobId == job }

  predicate Withdraws(e: Event, job: JobId) { e.what.JobCancelled? && e.what.jobId == job }

  /** Event `i` is the job's latest offer, and no cancellation follows it. */
  predicate StandingOffer(events: seq<Event>, job: JobId, i: nat) {
    && i < |events| && Offers(events[i], job)
    && forall j :: i < j < |events| ==> !Offers(events[j], job) && !Withdraws(events[j], job)
  }

  predicate ClaimsFrom(e: Event, job: JobId, offeredTo: seq<WorkerId>) {
    e.what.OvertimeClaimed? && e.what.jobId == job && e.what.workerId in offeredTo
  }

  /** The first claim, in log order, by someone the hours were offered to. */
  function FirstClaim(events: seq<Event>, job: JobId, offeredTo: seq<WorkerId>): (r: Option<WorkerId>)
    ensures r.None? <==> forall i :: 0 <= i < |events| ==> !ClaimsFrom(events[i], job, offeredTo)
    ensures r.Some? ==> exists i :: 0 <= i < |events| && ClaimsFrom(events[i], job, offeredTo)
                          && events[i].what.workerId == r.value
                          && forall h :: 0 <= h < i ==> !ClaimsFrom(events[h], job, offeredTo)
  {
    if events == [] then None
    else if ClaimsFrom(events[0], job, offeredTo) then Some(events[0].what.workerId)
    else
      var r := FirstClaim(events[1..], job, offeredTo);
      assert r.Some? ==> exists i :: 0 < i < |events| && ClaimsFrom(events[i], job, offeredTo)
                           && events[i].what.workerId == r.value
                           && forall h :: 0 <= h < i ==> !ClaimsFrom(events[h], job, offeredTo) by {
        if r.Some? {
          var i :| 0 <= i < |events[1..]| && ClaimsFrom(events[1..][i], job, offeredTo)
                   && events[1..][i].what.workerId == r.value
                   && forall h :: 0 <= h < i ==> !ClaimsFrom(events[1..][h], job, offeredTo);
          assert events[i + 1] == events[1..][i];
          forall h | 0 <= h < i + 1 ensures !ClaimsFrom(events[h], job, offeredTo) {
            if h > 0 { assert events[h] == events[1..][h - 1]; }
          }
        }
      }
      assert forall i :: 1 <= i < |events| ==> events[i] == events[1..][i - 1];
      r
  }

  lemma FirstClaimSnoc(events: seq<Event>, e: Event, job: JobId, offeredTo: seq<WorkerId>)
    ensures FirstClaim(events + [e], job, offeredTo) ==
              var r := FirstClaim(events, job, offeredTo);
              if r.None? && ClaimsFrom(e, job, offeredTo) then Some(e.what.workerId) else r
  {
    if events == [] {
      assert events + [e] == [e];
      assert [e][1..] == [];
    } else {
      assert (events + [e])[1..] == events[1..] + [e];
      FirstClaimSnoc(events[1..], e, job, offeredTo);
    }
  }

  /** An offer on the board is the job's standing offer, claimed by the first of the people it went to
      who said yes since. */
  lemma {:induction false} OfferIsFirstClaim(t: Moment, events: seq<Event>, job: JobId, i: nat)
    requires StandingOffer(events, job, i)
    ensures var w := Replay(Empty(t), events);
            var f := events[i].what;
            && job in w.overtimeOffers
            && w.overtimeOffers[job] == OvertimeOffer(job, f.onDate, f.offeredTo, f.fallback, f.overtimeMinutes,
                                                      f.claimDeadline, FirstClaim(events[i + 1..], job, f.offeredTo))
    decreases |events|
  {
    var n := |events| - 1;
    var before := Replay(Empty(t), events[..n]).overtimeOffers;
    if i < n {
      assert StandingOffer(events[..n], job, i);
      OfferIsFirstClaim(t, events[..n], job, i);
      assert events[i + 1..] == events[..n][i + 1..] + [events[n]];
      FirstClaimSnoc(events[..n][i + 1..], events[n], job, events[i].what.offeredTo);
      OfferAfter(before, events[n].what, job);
    } else {
      assert events[i + 1..] == [];
    }
  }

  /** One event that neither renews nor withdraws a job's offer can only claim it. */
  lemma OfferAfter(m: map<JobId, OvertimeOffer>, f: Fact, job: JobId)
    requires job in m
    requires !(f.OvertimeOffered? && f.jobId == job) && !(f.JobCancelled? && f.jobId == job)
    ensures job in NextOffers(m, f)
    ensures NextOffers(m, f)[job] ==
              if m[job].claimedBy.None? && f.OvertimeClaimed? && f.jobId == job && f.workerId in m[job].offeredTo
              then m[job].(claimedBy := Some(f.workerId)) else m[job]
  {
  }

  /** With no standing offer there is none on the board. */
  lemma {:induction false} NoStandingOffer(t: Moment, events: seq<Event>, job: JobId)
    requires forall i :: 0 <= i < |events| ==> !StandingOffer(events, job, i)
    ensures job !in Replay(Empty(t), events).overtimeOffers
  {
    if events != [] {
      var n := |events| - 1;
      assert !StandingOffer(events, job, n);
      if !Withdraws(events[n], job) {
        forall i | 0 <= i < n ensures !StandingOffer(events[..n], job, i) {
          assert !StandingOffer(events, job, i);
          if StandingOffer(events[..n], job, i) {
            forall j | i < j < |events| ensures !Offers(events[j], job) && !Withdraws(events[j], job) {
              assert j < n ==> events[j] == events[..n][j];
            }
          }
        }
        NoStandingOffer(t, events[..n], job);
      }
    }
  }

  predicate Extends(e: Event, worker: WorkerId, date: Day) {
    e.what.ShiftExtended? && e.what.workerId == worker && e.what.onDate == date
  }

  /** An extension is on file exactly when the log agrees to one, and then it is the latest hour. */
  ghost predicate HoursRecorded(
    extensions: map<(WorkerId, Day), Moment>, events: seq<Event>, worker: WorkerId, date: Day)
  {
    && ((worker, date) in extensions <==> exists i :: 0 <= i < |events| && Extends(events[i], worker, date))
    && ((worker, date) in extensions ==> LatestHour(events, worker, date, extensions[(worker, date)]))
  }

  /** A worker's longer day is the latest hour ever agreed for that date. */
  lemma {:induction false} ExtensionIsLatestHour(t: Moment, events: seq<Event>, worker: WorkerId, date: Day)
    ensures HoursRecorded(Replay(Empty(t), events).shiftExtensions, events, worker, date)
  {
    if events != [] {
      var n := |events| - 1;
      ExtensionIsLatestHour(t, events[..n], worker, date);
      HourAfter(Replay(Empty(t), events[..n]).shiftExtensions, Replay(Empty(t), events).shiftExtensions,
                events, worker, date);
    }
  }

  /** `hour` is the latest any of the events agrees to. */
  ghost predicate LatestHour(events: seq<Event>, worker: WorkerId, date: Day, hour: Moment) {
    && (exists i :: 0 <= i < |events| && Extends(events[i], worker, date) && events[i].what.agreedHour == hour)
    && (forall i :: 0 <= i < |events| && Extends(events[i], worker, date) ==> events[i].what.agreedHour <= hour)
  }

  lemma HourAfter(
    before: map<(WorkerId, Day), Moment>, after: map<(WorkerId, Day), Moment>, events: seq<Event>,
    worker: WorkerId, date: Day)
    requires events != [] && after == NextExtensions(before, events[|events| - 1].what)
    requires HoursRecorded(before, events[..|events| - 1], worker, date)
    ensures HoursRecorded(after, events, worker, date)
  {
    var n := |events| - 1;
    var key := (worker, date);
    assert forall i :: 0 <= i < n ==> events[i] == events[..n][i];
    if key in before {
      var i :| 0 <= i < n && Extends(events[..n][i], worker, date) && events[..n][i].what.agreedHour == before[key];
      assert Extends(events[i], worker, date) && events[i].what.agreedHour == before[key];
    }
    if Extends(events[n], worker, date) {
      assert key in after;
    } else {
      assert key in after <==> key in before;
      assert key in before ==> after[key] == before[key];
    }
  }
}
