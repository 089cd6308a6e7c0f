/** The longest usable stretch of a span under outages (scheduler/day_planner.py, `_largest_free_interval`). */
module FreeInterval {
  import opened Collections
  import opened Domain

  type Interval = (int, int)

  /** Where the planner takes an outage to end, in minutes from midnight: an open-ended one at midnight. */
  function EndMinute(o: Unavailability, dayStart: Moment): int {
    if o.until.Some? then o.until.value - dayStart else MINUTES_PER_DAY
  }

  predicate Blocks(o: Unavailability, dayStart: Moment, m: int) {
    o.from - dayStart <= m < EndMinute(o, dayStart)
  }

  ghost predicate BlockedAt(outages: seq<Unavailability>, dayStart: Moment, m: int) {
    exists i :: 0 <= i < |outages| && Blocks(outages[i], dayStart, m)
  }

  /** `[a, b)` is a non-empty stretch of the span that meets no outage. */
  ghost predicate Free(outages: seq<Unavailability>, dayStart: Moment, span: Interval, a: int, b: int) {
    span.0 <= a < b <= span.1 && forall m :: a <= m < b ==> !BlockedAt(outages, dayStart, m)
  }

  /** The earliest of the longest free stretches, or nothing when there is none. */
  ghost predicate IsLargestFree(outages: seq<Unavailability>, dayStart: Moment, span: Interval, r: Option<Interval>) {
    match r
    case None => forall a, b :: !Free(outages, dayStart, span, a, b)
    case Some(best) =>
      && Free(outages, dayStart, span, best.0, best.1)
      && forall a, b :: Free(outages, dayStart, span, a, b) ==>
           b - a <= best.1 - best.0 && (b - a == best.1 - best.0 ==> best.0 <= a)
  }

  // ---------------------------------------------------------------- intervals

  ghost predicate InSome(s: seq<Interval>, m: int) {
    exists i :: 0 <= i < |s| && s[i].0 <= m < s[i].1
  }

  ghost predicate Inside(s: seq<Interval>, span: Interval) {
    forall i :: 0 <= i < |s| ==> span.0 <= s[i].0 < s[i].1 <= span.1
  }

  ghost predicate Separated(s: seq<Interval>) {
    forall i, j :: 0 <= i < j < |s| ==> s[i].1 < s[j].0
  }

  predicate IntervalLe(a: Interval, b: Interval) { a.0 < b.0 || (a.0 == b.0 && a.1 <= b.1) }

  lemma InSomeSnoc(s: seq<Interval>, x: Interval, m: int)
    ensures InSome(s + [x], m) <==> InSome(s, m) || x.0 <= m < x.1
  {
    if InSome(s, m) {
      var i :| 0 <= i < |s| && s[i].0 <= m < s[i].1;
      assert (s + [x])[i] == s[i];
    }
    assert (s + [x])[|s|] == x;
  }

  lemma BlockedSnoc(s: seq<Unavailability>, x: Unavailability, dayStart: Moment, m: int)
    ensures BlockedAt(s + [x], dayStart, m) <==> BlockedAt(s, dayStart, m) || Blocks(x, dayStart, m)
  {
    if BlockedAt(s, dayStart, m) {
      var i :| 0 <= i < |s| && Blocks(s[i], dayStart, m);
      assert (s + [x])[i] == s[i];
    }
    assert (s + [x])[|s|] == x;
  }

  // ---------------------------------------------------------------- the search

  method BlockedStretches(outages: seq<Unavailability>, dayStart: Moment, span: Interval)
    returns (blocked: seq<Interval>)
    ensures Inside(blocked, span)
    ensures forall m :: span.0 <= m < span.1 ==> (InSome(blocked, m) <==> BlockedAt(outages, dayStart, m))
  {
    blocked := [];
    for i := 0 to |outages|
      invariant Inside(blocked, span)
      invariant forall m :: span.0 <= m < span.1 ==> (InSome(blocked, m) <==> BlockedAt(outages[..i], dayStart, m))
    {
      var o := outages[i];
      var lo, hi := Max(span.0, o.from - dayStart), Min(span.1, EndMinute(o, dayStart));
      assert outages[..i + 1] == outages[..i] + [o];
      forall m | span.0 <= m < span.1
        ensures BlockedAt(outages[..i + 1], dayStart, m) <==> BlockedAt(outages[..i], dayStart, m) || lo <= m < hi
        ensures InSome(blocked + [(lo, hi)], m) <==> InSome(blocked, m) || lo <= m < hi
      {
        BlockedSnoc(outages[..i], o, dayStart, m);
        InSomeSnoc(blocked, (lo, hi), m);
      }
      if lo < hi {
        blocked := blocked + [(lo, hi)];
      }
    }
    assert outages[..|outages|] == outages;
  }

  /** Adding `x` to `s` either stretches the last interval of `s` over it or appends it. */
  function Absorb(s: seq<Interval>, x: Interval): seq<Interval> {
    if s != [] && x.0 <= s[|s| - 1].1
    then s[..|s| - 1] + [(s[|s| - 1].0, Max(s[|s| - 1].1, x.1))]
    else s + [x]
  }

  lemma AbsorbIsUnion(s: seq<Interval>, x: Interval, span: Interval)
    requires Inside(s, span) && Separated(s) && span.0 <= x.0 < x.1 <= span.1
    requires s != [] ==> s[|s| - 1].0 <= x.0
    ensures Inside(Absorb(s, x), span) && Separated(Absorb(s, x))
    ensures forall m :: InSome(Absorb(s, x), m) <==> InSome(s, m) || x.0 <= m < x.1
  {
    forall m ensures InSome(Absorb(s, x), m) <==> InSome(s, m) || x.0 <= m < x.1 {
      if s != [] && x.0 <= s[|s| - 1].1 {
        var body, last := s[..|s| - 1], s[|s| - 1];
        assert s == body + [last];
        InSomeSnoc(body, last, m);
        InSomeSnoc(body, (last.0, Max(last.1, x.1)), m);
      } else {
        InSomeSnoc(s, x, m);
      }
    }
  }

  method Merge(blocked: seq<Interval>, span: Interval) returns (merged: seq<Interval>)
    requires SortedBy(blocked, IntervalLe) && Inside(blocked, span)
    ensures Inside(merged, span) && Separated(merged)
    ensures forall m :: InSome(merged, m) <==> InSome(blocked, m)
  {
    merged := [];
    for i := 0 to |blocked|
      invariant Inside(merged, span) && Separated(merged)
      invariant merged != [] ==> i > 0 && merged[|merged| - 1].0 <= blocked[i - 1].0
      invariant forall m :: InSome(merged, m) <==> InSome(blocked[..i], m)
    {
      var (lo, hi) := blocked[i];
      assert i > 0 ==> IntervalLe(blocked[i - 1], blocked[i]);
      AbsorbIsUnion(merged, (lo, hi), span);
      assert blocked[..i + 1] == blocked[..i] + [blocked[i]];
      forall m ensures InSome(blocked[..i + 1], m) <==> InSome(blocked[..i], m) || lo <= m < hi {
        InSomeSnoc(blocked[..i], blocked[i], m);
      }
      if merged != [] && lo <= merged[|merged| - 1].1 {
        var last := |merged| - 1;
        merged := merged[..last] + [(merged[last].0, Max(merged[last].1, hi))];
      } else {
        merged := merged + [(lo, hi)];
      }
    }
    assert blocked[..|blocked|] == blocked;
  }

  ghost predicate Gap(merged: seq<Interval>, span: Interval, a: int, b: int) {
    span.0 <= a < b <= span.1 && forall m :: a <= m < b ==> !InSome(merged, m)
  }

  /** Every gap that begins before `limit` is no longer than `best`, and no earlier if as long. */
  ghost predicate BestBefore(merged: seq<Interval>, span: Interval, limit: int, best: Option<Interval>) {
    forall a, b :: Gap(merged, span, a, b) && a < limit ==>
      best.Some? && b - a <= best.value.1 - best.value.0 && (b - a == best.value.1 - best.value.0 ==> best.value.0 <= a)
  }

  method Sweep(merged: seq<Interval>, span: Interval) returns (best: Option<Interval>)
    requires Inside(merged, span) && Separated(merged) && span.0 <= span.1
    ensures best.Some? ==> Gap(merged, span, best.value.0, best.value.1)
    ensures BestBefore(merged, span, span.1, best)
  {
    best := None;
    var cursor := span.0;
    var walls := merged + [(span.1, span.1)];
    for i := 0 to |walls|
      invariant span.0 <= cursor <= span.1
      invariant forall j :: 0 <= j < i ==> walls[j].1 <= cursor
      invariant forall j :: i <= j < |walls| ==> cursor <= walls[j].0
      invariant best.Some? ==> Gap(merged, span, best.value.0, best.value.1) && best.value.0 < cursor
      invariant BestBefore(merged, span, cursor, best)
      invariant i == |walls| ==> cursor == span.1
    {
      var (lo, hi) := walls[i];
      forall a, b | Gap(merged, span, a, b) && cursor <= a < hi ensures b <= lo {
        if i < |merged| {
          assert InSome(merged, lo) && (lo <= a ==> InSome(merged, a));
        }
      }
      assert lo > cursor ==> Gap(merged, span, cursor, lo) by {
        forall m | cursor <= m < lo ensures !InSome(merged, m) {
          forall j | 0 <= j < |merged| ensures !(merged[j].0 <= m < merged[j].1) {
            assert merged[j] == walls[j];
          }
        }
      }
      if lo > cursor && (best.None? || lo - cursor > best.value.1 - best.value.0) {
        best := Some((cursor, lo));
      }
      cursor := Max(cursor, hi);
    }
  }

  lemma IntervalLeIsPreorder()
    ensures TotalPreorder(IntervalLe)
  {
  }

  method LargestFreeInterval(outages: seq<Unavailability>, dayStart: Moment, span: Interval)
    returns (r: Option<Interval>)
    ensures IsLargestFree(outages, dayStart, span, r)
  {
    var blocked := BlockedStretches(outages, dayStart, span);
    if blocked == [] {
      return if span.0 < span.1 then Some(span) else None;
    }
    var ordered := Sort(blocked, IntervalLe);
    IntervalLeIsPreorder();
    SortSorts(blocked, IntervalLe);
    SortKeeps(blocked, IntervalLe);
    SameMembers(blocked, ordered, span);
    var merged := Merge(ordered, span);
    assert span.0 < span.1 by { assert span.0 <= blocked[0].0 < blocked[0].1 <= span.1; }
    r := Sweep(merged, span);
    forall a, b ensures Gap(merged, span, a, b) <==> Free(outages, dayStart, span, a, b) {
      GapIsFree(outages, dayStart, span, merged, a, b);
    }
  }

  lemma SameMembers(s: seq<Interval>, t: seq<Interval>, span: Interval)
    requires multiset(s) == multiset(t)
    requires Inside(s, span)
    ensures Inside(t, span)
    ensures forall m :: InSome(s, m) <==> InSome(t, m)
  {
    forall i | 0 <= i < |t| ensures span.0 <= t[i].0 < t[i].1 <= span.1 {
      assert t[i] in multiset(t) && t[i] in s;
    }
    forall m ensures InSome(s, m) <==> InSome(t, m) {
      if InSome(s, m) {
        var i :| 0 <= i < |s| && s[i].0 <= m < s[i].1;
        assert s[i] in multiset(s) && s[i] in t;
      }
      if InSome(t, m) {
        var i :| 0 <= i < |t| && t[i].0 <= m < t[i].1;
        assert t[i] in multiset(t) && t[i] in s;
      }
    }
  }

  lemma GapIsFree(
    outages: seq<Unavailability>, dayStart: Moment, span: Interval, merged: seq<Interval>, a: int, b: int)
    requires forall m :: span.0 <= m < span.1 ==> (InSome(merged, m) <==> BlockedAt(outages, dayStart, m))
    ensures Gap(merged, span, a, b) <==> Free(outages, dayStart, span, a, b)
  {
    if span.0 <= a < b <= span.1 {
      forall m | a <= m < b ensures InSome(merged, m) <==> BlockedAt(outages, dayStart, m) {}
    }
  }

  // ------------------------------------------------------------ what it means

  /** The answer is unique, so the search is a function of its input. */
  lemma LargestFreeIsUnique(
    outages: seq<Unavailability>, dayStart: Moment, span: Interval, r: Option<Interval>, q: Option<Interval>)
    requires IsLargestFree(outages, dayStart, span, r) && IsLargestFree(outages, dayStart, span, q)
    ensures r == q
  {
    assert r.Some? ==> Free(outages, dayStart, span, r.value.0, r.value.1);
    assert q.Some? ==> Free(outages, dayStart, span, q.value.0, q.value.1);
  }

  /** Nothing is returned exactly when every minute of the span is blocked. */
  lemma NothingMeansAllBlocked(outages: seq<Unavailability>, dayStart: Moment, span: Interval, r: Option<Interval>)
    requires IsLargestFree(outages, dayStart, span, r)
    ensures r.None? <==> forall m :: span.0 <= m < span.1 ==> BlockedAt(outages, dayStart, m)
  {
    if r.None? {
      forall m | span.0 <= m < span.1 ensures BlockedAt(outages, dayStart, m) {
        assert !Free(outages, dayStart, span, m, m + 1);
      }
    } else {
      assert !BlockedAt(outages, dayStart, r.value.0);
    }
  }

  /** The planner's free stretches of a span are exactly the ones the availability query accepts. */
  ghost predicate ViewsAgree(outages: seq<Unavailability>, dayStart: Moment, span: Interval) {
    forall a, b :: span.0 <= a < b <= span.1 ==>
      (Free(outages, dayStart, span, a, b) <==> NoneCovers(outages, dayStart + a, dayStart + b))
  }

  /** Some minute from `a` up to `b` is blocked. */
  ghost predicate BlockedWithin(outages: seq<Unavailability>, dayStart: Moment, a: int, b: int) {
    exists m :: a <= m < b && BlockedAt(outages, dayStart, m)
  }

  /** What one outage must satisfy for the two views of its resource to agree. An open-ended one: every
      minute of the span past midnight that it lasts into is blocked by another. One that ends: it ends
      after it begins, or it lies outside the span, or another blocks a minute of the stretch it is seen in. */
  ghost predicate Harmless(outages: seq<Unavailability>, dayStart: Moment, span: Interval, o: Unavailability) {
    var from := o.from - dayStart;
    if o.until.None? then
      forall m :: Max(MINUTES_PER_DAY, Max(from, span.0)) <= m < span.1 ==> BlockedAt(outages, dayStart, m)
    else
      var until := o.until.value - dayStart;
      || from < until || until <= span.0 || span.1 <= from
      || BlockedWithin(outages, dayStart, Min(until, span.1) - 1, Max(from, span.0) + 1)
  }

  lemma BlockedIsCovered(outages: seq<Unavailability>, dayStart: Moment, a: int, b: int, m: int)
    requires a <= m < b && BlockedAt(outages, dayStart, m)
    ensures !NoneCovers(outages, dayStart + a, dayStart + b)
  {
    var i :| 0 <= i < |outages| && Blocks(outages[i], dayStart, m);
    assert Covers(outages[i], dayStart + a, dayStart + b);
  }

  /** A stretch the planner thinks free and a harmless outage covers cannot be. */
  lemma HarmlessBlocks(
    outages: seq<Unavailability>, dayStart: Moment, span: Interval, o: Unavailability, a: int, b: int)
    requires o in outages && Harmless(outages, dayStart, span, o)
    requires span.0 <= a < b <= span.1 && Covers(o, dayStart + a, dayStart + b)
    ensures BlockedWithin(outages, dayStart, a, b)
  {
    var i :| 0 <= i < |outages| && outages[i] == o;
    var m := Max(a, o.from - dayStart);
    if o.until.None? {
      if m < MINUTES_PER_DAY {
        assert Blocks(outages[i], dayStart, m);
      }
      assert BlockedAt(outages, dayStart, m);
    } else if o.from < o.until.value {
      assert Blocks(outages[i], dayStart, m);
      assert BlockedAt(outages, dayStart, m);
    } else {
      var until := o.until.value - dayStart;
      var n :| Min(until, span.1) - 1 <= n < Max(o.from - dayStart, span.0) + 1 && BlockedAt(outages, dayStart, n);
      assert a <= n < b;
    }
  }

  lemma AgreeingIsHarmless(outages: seq<Unavailability>, dayStart: Moment, span: Interval, o: Unavailability)
    requires o in outages && ViewsAgree(outages, dayStart, span)
    ensures Harmless(outages, dayStart, span, o)
  {
    var i :| 0 <= i < |outages| && outages[i] == o;
    var from := o.from - dayStart;
    if o.until.None? {
      forall m | Max(MINUTES_PER_DAY, Max(from, span.0)) <= m < span.1 ensures BlockedAt(outages, dayStart, m) {
        assert Covers(outages[i], dayStart + m, dayStart + (m + 1));
        assert !Free(outages, dayStart, span, m, m + 1);
      }
    } else {
      var until := o.until.value - dayStart;
      if until <= from && span.0 < until && from < span.1 {
        var a, b := Min(until, span.1) - 1, Max(from, span.0) + 1;
        assert Covers(outages[i], dayStart + a, dayStart + b);
        assert !Free(outages, dayStart, span, a, b);
      }
    }
  }

  /** Exactly when the planner and the availability query agree on every stretch of a span, past midnight
      included: every outage is harmless. */
  lemma ViewsAgreeIff(outages: seq<Unavailability>, dayStart: Moment, span: Interval)
    ensures ViewsAgree(outages, dayStart, span) <==>
            forall i :: 0 <= i < |outages| ==> Harmless(outages, dayStart, span, outages[i])
  {
    if ViewsAgree(outages, dayStart, span) {
      forall i | 0 <= i < |outages| ensures Harmless(outages, dayStart, span, outages[i]) {
        AgreeingIsHarmless(outages, dayStart, span, outages[i]);
      }
    } else {
      var a, b :| span.0 <= a < b <= span.1
        && !(Free(outages, dayStart, span, a, b) <==> NoneCovers(outages, dayStart + a, dayStart + b));
      if !Free(outages, dayStart, span, a, b) {
        var m :| a <= m < b && BlockedAt(outages, dayStart, m);
        BlockedIsCovered(outages, dayStart, a, b, m);
      }
      var i :| 0 <= i < |outages| && Covers(outages[i], dayStart + a, dayStart + b);
      if Harmless(outages, dayStart, span, outages[i]) {
        HarmlessBlocks(outages, dayStart, span, outages[i], a, b);
      }
    }
  }

  /** Within the day, outages that end after they begin, or not at all, are harmless. */
  lemma FreeIsAvailable(outages: seq<Unavailability>, dayStart: Moment, span: Interval)
    requires forall i :: 0 <= i < |outages| ==> WellFormed(outages[i])
    requires span.1 <= MINUTES_PER_DAY
    ensures ViewsAgree(outages, dayStart, span)
  {
    ViewsAgreeIff(outages, dayStart, span);
  }

  /** For one outage and one day: it ends after it begins, or it lies before the day, or after it. */
  lemma OneOutageAgreesIff(o: Unavailability, dayStart: Moment)
    ensures ViewsAgree([o], dayStart, (0, MINUTES_PER_DAY)) <==>
            WellFormed(o) || o.until.value <= dayStart || o.from >= dayStart + MINUTES_PER_DAY
  {
    ViewsAgreeIff([o], dayStart, (0, MINUTES_PER_DAY));
    assert Harmless([o], dayStart, (0, MINUTES_PER_DAY), [o][0]) <==>
           WellFormed(o) || o.until.value <= dayStart || o.from >= dayStart + MINUTES_PER_DAY by {
      if o.until.Some? && o.until.value <= o.from {
        forall m ensures !BlockedAt([o], dayStart, m) {
          assert !Blocks([o][0], dayStart, m);
        }
      }
    }
  }

  /** An outage that ends when it begins blocks no minute for the planner, yet the availability
      query refuses every visit that runs across it. */
  lemma EmptyOutageSplitsTheViews(at: Moment, dayStart: Moment, span: Interval)
    requires dayStart + span.0 < at < dayStart + span.1
    ensures var outages := [Unavailability(at, Some(at), "")];
            Free(outages, dayStart, span, span.0, span.1) && !NoneCovers(outages, dayStart + span.0, dayStart + span.1)
  {
    var outages := [Unavailability(at, Some(at), "")];
    forall m | span.0 <= m < span.1 ensures !BlockedAt(outages, dayStart, m) {
      assert !Blocks(outages[0], dayStart, m);
    }
    assert Covers(outages[0], dayStart + span.0, dayStart + span.1);
  }

  /** Past midnight the planner believes an open-ended outage over; the availability query does not. */
  lemma OpenOutageEndsAtMidnight(from: Moment, dayStart: Moment, span: Interval)
    requires from <= dayStart && span.0 <= MINUTES_PER_DAY < span.1
    ensures var outages := [Unavailability(from, None, "")];
            && Free(outages, dayStart, span, MINUTES_PER_DAY, span.1)
            && !NoneCovers(outages, dayStart + MINUTES_PER_DAY, dayStart + span.1)
  {
    var outages := [Unavailability(from, None, "")];
    forall m | MINUTES_PER_DAY <= m < span.1 ensures !BlockedAt(outages, dayStart, m) {
      assert !Blocks(outages[0], dayStart, m);
    }
    assert Covers(outages[0], dayStart + MINUTES_PER_DAY, dayStart + span.1);
  }
}
