/** The day grid: overlapping stops side by side in columns, a gap in the day starting afresh
    (web/src/components/Calendar.tsx). */
module Calendar {
  import opened Collections

  datatype GridStop = GridStop(jobId: string, start: int, end: int)

  datatype Item = Item(route: nat, stop: GridStop)

  datatype Placed = Placed(item: Item, column: nat, columns: nat)

  /** Every stop of every route, in route order. */
  function Flat(routes: seq<seq<GridStop>>): seq<Item> {
    if routes == [] then []
    else
      var n := |routes| - 1;
      Flat(routes[..n]) + seq(|routes[n]|, i requires 0 <= i < |routes[n]| => Item(n, routes[n][i]))
  }

  /** How often the route lists this stop. */
  function Listed(routes: seq<seq<GridStop>>, item: Item): nat {
    if item.route < |routes| then multiset(routes[item.route])[item.stop] else 0
  }

  lemma {:induction false} OneRouteListed(n: nat, stops: seq<GridStop>, item: Item)
    ensures multiset(seq(|stops|, i requires 0 <= i < |stops| => Item(n, stops[i])))[item] ==
            if item.route == n then multiset(stops)[item.stop] else 0
  {
    if stops == [] {
      assert seq(|stops|, i requires 0 <= i < |stops| => Item(n, stops[i])) == [];
    } else {
      var m := |stops| - 1;
      OneRouteListed(n, stops[..m], item);
      assert seq(|stops|, i requires 0 <= i < |stops| => Item(n, stops[i]))
          == seq(m, i requires 0 <= i < m => Item(n, stops[..m][i])) + [Item(n, stops[m])];
      assert stops == stops[..m] + [stops[m]];
    }
  }

  /** Nothing is left off the grid or put on it twice. */
  lemma {:induction false} EveryStopIsListed(routes: seq<seq<GridStop>>, item: Item)
    ensures multiset(Flat(routes))[item] == Listed(routes, item)
    decreases |routes|
  {
    if routes != [] {
      var n := |routes| - 1;
      EveryStopIsListed(routes[..n], item);
      OneRouteListed(n, routes[n], item);
    }
  }

  predicate StartLe(a: Item, b: Item) { a.stop.start <= b.stop.start }

  predicate ByStart(items: seq<Item>) {
    forall i, j :: 0 <= i < j < |items| ==> items[i].stop.start <= items[j].stop.start
  }

  /** Every stop takes some time. */
  predicate TakeTime(items: seq<Item>) {
    forall i :: 0 <= i < |items| ==> items[i].stop.start < items[i].stop.end
  }

  predicate On(item: Item, t: int) { item.stop.start <= t < item.stop.end }

  /** The stops running at `t`. */
  function OnAt(items: seq<Item>, t: int): set<int> { set k | 0 <= k < |items| && On(items[k], t) }

  /** The stops before `k` that have not ended when it starts. */
  function StillRunning(items: seq<Item>, k: nat): set<int>
    requires k < |items|
  {
    set j | 0 <= j < k && items[k].stop.start < items[j].stop.end
  }

  /** How many columns stop `k` and those still running when it starts need. */
  function Needed(items: seq<Item>, k: nat): nat
    requires k < |items|
  {
    |StillRunning(items, k)| + 1
  }

  /** Nothing earlier runs on into stop `m`. */
  predicate Gap(items: seq<Item>, m: nat)
    requires m < |items|
  {
    forall i :: 0 <= i < m ==> items[i].stop.end <= items[m].stop.start
  }

  // ------------------------------------------------------------------ counting

  lemma {:induction false} DistinctFits(s: seq<int>, within: set<int>)
    requires Distinct(s) && forall i :: 0 <= i < |s| ==> s[i] in within
    ensures |s| <= |within|
  {
    if s != [] {
      DistinctFits(s[1..], within - {s[0]});
    }
  }

  lemma {:induction false} OneEachFits(chosen: set<int>, column: seq<nat>, n: nat)
    requires forall x :: x in chosen ==> 0 <= x < |column| && column[x] < n
    requires forall x, y :: x in chosen && y in chosen && x != y ==> column[x] != column[y]
    ensures |chosen| <= n
  {
    if n == 0 {
      assert !exists x :: x in chosen;
      assert chosen == {};
    } else if x :| x in chosen && column[x] == n - 1 {
      OneEachFits(chosen - {x}, column, n - 1);
    } else {
      OneEachFits(chosen, column, n - 1);
    }
  }

  lemma {:induction false} ShiftFits(s: set<int>, t: set<int>, distance: int)
    requires forall k :: k in s ==> k + distance in t
    ensures |s| <= |t|
  {
    if x :| x in s {
      ShiftFits(s - {x}, t - {x + distance}, distance);
    } else {
      assert !exists x :: x in s;
      assert s == {};
    }
  }

  // --------------------------------------------------------------- one cluster

  /** Two stops in one column never overlap. */
  predicate ColumnsClear(items: seq<Item>, column: seq<nat>)
    requires |column| <= |items|
  {
    forall j, k :: 0 <= j < k < |column| && column[j] == column[k] ==> items[j].stop.end <= items[k].stop.start
  }

  predicate BusyFor(items: seq<Item>, column: seq<nat>, k: nat, c: nat)
    requires k < |column| <= |items|
  {
    exists j :: 0 <= j < k && column[j] == c && items[k].stop.start < items[j].stop.end
  }

  /** Each stop stands as far left as it can: every column left of it is busy when it starts. */
  predicate LeftMost(items: seq<Item>, column: seq<nat>)
    requires |column| <= |items|
  {
    forall k: nat, c: nat :: k < |column| && c < column[k] ==> BusyFor(items, column, k, c)
  }

  /** `n` is the most columns any stop needs when it starts. */
  predicate WidthIs(items: seq<Item>, n: nat) {
    && (exists k :: 0 <= k < |items| && Needed(items, k) == n)
    && (forall k :: 0 <= k < |items| ==> Needed(items, k) <= n)
  }

  /** `n` is the most stops that ever run at once. */
  predicate PeakIs(items: seq<Item>, n: nat) {
    && (exists k :: 0 <= k < |items| && |OnAt(items, items[k].stop.start)| == n)
    && (forall k :: 0 <= k < |items| ==> |OnAt(items, items[k].stop.start)| <= n)
  }

  lemma ColumnsAreEnough(items: seq<Item>, column: seq<nat>, n: nat, t: int)
    requires |column| == |items| && ColumnsClear(items, column)
    requires forall k :: 0 <= k < |column| ==> column[k] < n
    ensures |OnAt(items, t)| <= n
  {
    OneEachFits(OnAt(items, t), column, n);
  }

  /** Whoever is still running stands in a column of its own. */
  lemma ColumnsAreNeeded(items: seq<Item>, column: seq<nat>, n: nat, k: nat)
    requires |column| == |items| && ByStart(items) && ColumnsClear(items, column) && k < |items|
    requires forall j :: 0 <= j < |column| ==> column[j] < n
    ensures Needed(items, k) <= n
  {
    OneEachFits(StillRunning(items, k) + {k}, column, n);
  }

  /** For each column so far, its last stop and when that ends. */
  predicate LastsTrack(items: seq<Item>, column: seq<nat>, ends: seq<int>, last: seq<int>)
    requires |column| <= |items|
  {
    && |last| == |ends|
    && (forall k :: 0 <= k < |column| ==> column[k] < |ends|)
    && (forall c :: 0 <= c < |ends| ==>
        0 <= last[c] < |column| && column[last[c]] == c && ends[c] == items[last[c]].stop.end)
    && (forall k :: 0 <= k < |column| ==> k <= last[column[k]])
  }

  predicate ColumnsTrack(items: seq<Item>, column: seq<nat>, ends: seq<int>, last: seq<int>)
    requires |column| <= |items|
  {
    LastsTrack(items, column, ends, last) && ColumnsClear(items, column) && LeftMost(items, column)
  }

  lemma ClearNext(items: seq<Item>, column: seq<nat>, ends: seq<int>, last: seq<int>, c: nat)
    requires |column| < |items| && ByStart(items) && LastsTrack(items, column, ends, last)
    requires c <= |ends| && (c < |ends| ==> ends[c] <= items[|column|].stop.start)
    requires ColumnsClear(items, column)
    ensures ColumnsClear(items, column + [c])
  {
    var k, after := |column|, column + [c];
    forall i, j | 0 <= i < j < |after| && after[i] == after[j]
      ensures items[i].stop.end <= items[j].stop.start
    {
      if j == k {
        assert i < last[c] ==> items[i].stop.end <= items[last[c]].stop.start;
      }
    }
  }

  lemma LeftMostNext(items: seq<Item>, column: seq<nat>, ends: seq<int>, last: seq<int>, c: nat)
    requires |column| < |items| && LastsTrack(items, column, ends, last)
    requires c <= |ends| && forall i :: 0 <= i < c ==> items[|column|].stop.start < ends[i]
    requires LeftMost(items, column)
    ensures LeftMost(items, column + [c])
  {
    var k, after := |column|, column + [c];
    forall i: nat, d: nat | i < |after| && d < after[i] ensures BusyFor(items, after, i, d) {
      if i < k {
        assert BusyFor(items, column, i, d);
        var j :| 0 <= j < i && column[j] == d && items[i].stop.start < items[j].stop.end;
        assert after[j] == d;
      } else {
        assert after[last[d]] == d;
      }
    }
  }

  lemma TrackNext(items: seq<Item>, column: seq<nat>, ends: seq<int>, last: seq<int>, c: nat)
    requires |column| < |items| && ByStart(items) && ColumnsTrack(items, column, ends, last)
    requires c <= |ends| && (c < |ends| ==> ends[c] <= items[|column|].stop.start)
    requires forall i :: 0 <= i < c ==> items[|column|].stop.start < ends[i]
    ensures var k := |column|; var end := items[k].stop.end;
            if c < |ends| then ColumnsTrack(items, column + [c], ends[c := end], last[c := k])
            else ColumnsTrack(items, column + [c], ends + [end], last + [k])
  {
    ClearNext(items, column, ends, last, c);
    LeftMostNext(items, column, ends, last, c);
  }

  /** A column is opened only when every column is in use, so that many stops are still running. */
  lemma OpeningMeansBusy(items: seq<Item>, column: seq<nat>, ends: seq<int>, last: seq<int>)
    requires |column| < |items| && ColumnsTrack(items, column, ends, last)
    requires forall c :: 0 <= c < |ends| ==> items[|column|].stop.start < ends[c]
    ensures |ends| + 1 <= Needed(items, |column|)
  {
    DistinctFits(last, StillRunning(items, |column|));
  }

  lemma {:induction false} Largest(s: set<int>, x: int) returns (m: int)
    requires x in s
    ensures m in s && forall y :: y in s ==> y <= m
    decreases s
  {
    if y :| y in s && x < y {
      m := Largest(s - {x}, y);
      assert forall z :: z in s ==> z == x || z in s - {x};
    } else {
      assert !exists y :: y in s && x < y;
      assert forall z :: z in s ==> !(z in s && x < z);
      m := x;
    }
  }

  lemma {:induction false} SubsetFits(s: set<int>, t: set<int>)
    requires s <= t
    ensures |s| <= |t|
  {
    ShiftFits(s, t, 0);
  }

  /** When every stop takes time, the columns needed are the stops running at the busiest moment. */
  lemma WidthIsThePeak(items: seq<Item>, n: nat)
    requires ByStart(items) && TakeTime(items) && WidthIs(items, n)
    ensures PeakIs(items, n)
  {
    forall k | 0 <= k < |items| ensures |OnAt(items, items[k].stop.start)| <= n {
      var here := OnAt(items, items[k].stop.start);
      var m := Largest(here, k);
      SubsetFits(here, StillRunning(items, m) + {m});
      assert Needed(items, m) <= n;
    }
    var k :| 0 <= k < |items| && Needed(items, k) == n;
    SubsetFits(StillRunning(items, k) + {k}, OnAt(items, items[k].stop.start));
  }

  /** `ends.findIndex(end => end <= start)`, or a new column when there is none. */
  method FirstFree(ends: seq<int>, start: int) returns (c: nat)
    ensures c <= |ends| && (c < |ends| ==> ends[c] <= start)
    ensures forall i :: 0 <= i < c ==> start < ends[i]
  {
    c := 0;
    while c < |ends| && start < ends[c]
      invariant c <= |ends|
      invariant forall i :: 0 <= i < c ==> start < ends[i]
    {
      c := c + 1;
    }
  }

  function Columns(placed: seq<Placed>): (r: seq<nat>)
    ensures |r| == |placed| && forall k :: 0 <= k < |r| ==> r[k] == placed[k].column
  {
    seq(|placed|, k requires 0 <= k < |placed| => placed[k].column)
  }

  /** How one cluster is drawn: in order, each stop in one of the columns and as far left as it can be, no
      two of a column overlapping, and exactly as many columns as some stop needs when it starts. */
  predicate ClusterLaid(cluster: seq<Item>, placed: seq<Placed>) {
    && |placed| == |cluster|
    && (forall k :: 0 <= k < |placed| ==>
          && placed[k].item == cluster[k]
          && placed[k].column < placed[k].columns == placed[0].columns)
    && ColumnsClear(cluster, Columns(placed))
    && LeftMost(cluster, Columns(placed))
    && (cluster != [] ==> WidthIs(cluster, placed[0].columns))
  }

  method Flush(cluster: seq<Item>) returns (placed: seq<Placed>)
    requires ByStart(cluster) && cluster != []
    ensures ClusterLaid(cluster, placed)
  {
    var ends: seq<int> := [];
    var column: seq<nat> := [];
    ghost var last: seq<int> := [];
    ghost var peak := 0;
    while |column| < |cluster|
      invariant |column| <= |cluster|
      invariant ColumnsTrack(cluster, column, ends, last)
      invariant column != [] ==> ends != []
      invariant 0 <= peak < |cluster|
      invariant ends != [] ==> |ends| <= Needed(cluster, peak)
      decreases |cluster| - |column|
    {
      var stop := cluster[|column|].stop;
      var c := FirstFree(ends, stop.start);
      TrackNext(cluster, column, ends, last, c);
      if c == |ends| {
        OpeningMeansBusy(cluster, column, ends, last);
        ends := ends + [stop.end];
        last := last + [|column|];
        peak := |column|;
      } else {
        ends := ends[c := stop.end];
        last := last[c := |column|];
      }
      column := column + [c];
    }
    var columns := if 1 < |ends| then |ends| else 1;
    placed := seq(|cluster|, k requires 0 <= k < |cluster| => Placed(cluster[k], column[k], columns));
    assert Columns(placed) == column;
    forall k | 0 <= k < |cluster| ensures Needed(cluster, k) <= columns {
      ColumnsAreNeeded(cluster, column, columns, k);
    }
    assert Needed(cluster, peak) == columns;
  }

  // ------------------------------------------------------------- the whole day

  /** Stops `a` to `b` are one cluster: a gap before and after, none inside. */
  predicate Cluster(all: seq<Item>, a: nat, b: nat) {
    && a < b <= |all|
    && Gap(all, a)
    && (b < |all| ==> Gap(all, b))
    && forall m :: a < m < b ==> !Gap(all, m)
  }

  predicate DrawnIn(all: seq<Item>, out: seq<Placed>, k: nat, a: nat, b: nat) {
    a <= k < b <= |out| && Cluster(all, a, b) && ClusterLaid(all[a..b], out[a..b])
  }

  ghost predicate Drawn(all: seq<Item>, out: seq<Placed>, k: nat) {
    exists a: nat, b: nat :: DrawnIn(all, out, k, a, b)
  }

  /** No two blocks meet on the screen: their times are apart, or they stand in different columns of
      the same width. */
  predicate Apart(p: Placed, q: Placed) {
    p.item.stop.end <= q.item.stop.start || (p.columns == q.columns && p.column != q.column)
  }

  /** No gap anywhere between the two stops. */
  ghost predicate Together(all: seq<Item>, j: nat, k: nat) {
    j < |all| && k < |all| && forall m :: (j < m <= k || k < m <= j) ==> !Gap(all, m)
  }

  /** `n` is the most stops running at once at any moment of `k`'s cluster. */
  ghost predicate PeakAround(all: seq<Item>, k: nat, n: nat) {
    && (exists j: nat :: Together(all, j, k) && |OnAt(all, all[j].stop.start)| == n)
    && (forall j: nat :: Together(all, j, k) ==> |OnAt(all, all[j].stop.start)| <= n)
  }

  /** `n` is the most columns any stop of `k`'s cluster needs when it starts. */
  ghost predicate WidthAround(all: seq<Item>, k: nat, n: nat) {
    && (exists j: nat :: Together(all, j, k) && Needed(all, j) == n)
    && (forall j: nat :: Together(all, j, k) ==> Needed(all, j) <= n)
  }

  /** What being drawn in a cluster says of the whole day's sequences. */
  lemma InTheDay(all: seq<Item>, out: seq<Placed>, k: nat, a: nat, b: nat)
    requires |out| == |all| && DrawnIn(all, out, k, a, b)
    ensures forall j :: a <= j < b ==>
              out[j].item == all[j] && out[j].column < out[j].columns && out[j].columns == out[k].columns
    ensures forall i, j :: a <= i < j < b && out[i].column == out[j].column ==> all[i].stop.end <= all[j].stop.start
    ensures WidthIs(all[a..b], out[k].columns)
  {
    var cluster, placed := all[a..b], out[a..b];
    forall j | a <= j < b
      ensures out[j].item == all[j] && out[j].column < out[j].columns && out[j].columns == placed[0].columns
    {
      assert placed[j - a] == out[j] && cluster[j - a] == all[j];
    }
    forall i, j | a <= i < j < b && out[i].column == out[j].column ensures all[i].stop.end <= all[j].stop.start {
      assert Columns(placed)[i - a] == Columns(placed)[j - a];
    }
  }

  lemma AcrossAGap(all: seq<Item>, b: nat, j: nat, k: nat)
    requires ByStart(all) && j < b <= k < |all| && Gap(all, b)
    ensures all[j].stop.end <= all[k].stop.start
  {
    assert all[b].stop.start <= all[k].stop.start;
  }

  lemma DrawnApart(all: seq<Item>, out: seq<Placed>, j: nat, k: nat)
    requires ByStart(all) && |out| == |all| && j < k < |out|
    requires Drawn(all, out, j) && Drawn(all, out, k)
    ensures Apart(out[j], out[k])
  {
    var a: nat, b: nat :| DrawnIn(all, out, j, a, b);
    InTheDay(all, out, j, a, b);
    var c: nat, d: nat :| DrawnIn(all, out, k, c, d);
    InTheDay(all, out, k, c, d);
    if b <= k {
      AcrossAGap(all, b, j, k);
    }
  }

  /** Stops running when one of a cluster starts belong to the cluster. */
  lemma OthersAreQuiet(all: seq<Item>, a: nat, b: nat, j: nat, k: nat)
    requires ByStart(all) && TakeTime(all) && Cluster(all, a, b) && a <= j < b && k < |all|
    ensures On(all[k], all[j].stop.start) ==> a <= k < b
  {
    assert k < a ==> all[k].stop.end <= all[a].stop.start;
    assert b < |all| ==> all[j].stop.end <= all[b].stop.start;
  }

  lemma OnlyTheCluster(all: seq<Item>, a: nat, b: nat, j: nat)
    requires ByStart(all) && TakeTime(all) && Cluster(all, a, b) && a <= j < b
    ensures |OnAt(all, all[j].stop.start)| == |OnAt(all[a..b], all[a..b][j - a].stop.start)|
  {
    forall k: nat | k < |all| && On(all[k], all[j].stop.start) ensures a <= k < b {
      OthersAreQuiet(all, a, b, j, k);
    }
    SliceRunsTheSame(all, a, b, all[j].stop.start);
  }

  lemma SliceRunsTheSame(all: seq<Item>, a: nat, b: nat, t: int)
    requires a <= b <= |all|
    requires forall k: nat :: k < |all| && On(all[k], t) ==> a <= k < b
    ensures |OnAt(all, t)| == |OnAt(all[a..b], t)|
  {
    var here, there := OnAt(all[a..b], t), OnAt(all, t);
    forall k | k in there ensures k - a in here {
      assert all[a..b][k - a] == all[k];
    }
    forall k | k in here ensures k + a in there {
      assert all[a..b][k] == all[k + a];
    }
    ShiftFits(here, there, a);
    ShiftFits(there, here, 0 - a);
  }

  lemma TogetherIsTheCluster(all: seq<Item>, a: nat, b: nat, j: nat, k: nat)
    requires Cluster(all, a, b) && a <= k < b && j < |all|
    ensures Together(all, j, k) <==> a <= j < b
  {
    if j < a {
      assert Gap(all, a);
    }
    if b <= j {
      assert Gap(all, b);
    }
  }

  lemma PeakOfTheCluster(all: seq<Item>, k: nat, a: nat, b: nat, n: nat)
    requires ByStart(all) && TakeTime(all) && Cluster(all, a, b) && a <= k < b && PeakIs(all[a..b], n)
    ensures PeakAround(all, k, n)
  {
    forall j: nat | Together(all, j, k) ensures |OnAt(all, all[j].stop.start)| <= n {
      TogetherIsTheCluster(all, a, b, j, k);
      OnlyTheCluster(all, a, b, j);
    }
    var i :| 0 <= i < |all[a..b]| && |OnAt(all[a..b], all[a..b][i].stop.start)| == n;
    TogetherIsTheCluster(all, a, b, a + i, k);
    OnlyTheCluster(all, a, b, a + i);
    assert Together(all, a + i, k);
  }

  /** Nothing before the cluster is still running inside it. */
  lemma NeededInTheCluster(all: seq<Item>, a: nat, b: nat, j: nat)
    requires ByStart(all) && Cluster(all, a, b) && a <= j < b
    ensures Needed(all, j) == Needed(all[a..b], j - a)
  {
    var here, there := StillRunning(all[a..b], j - a), StillRunning(all, j);
    assert all[a..b][j - a] == all[j];
    forall i: nat | i < a ensures all[i].stop.end <= all[j].stop.start {
      AcrossAGap(all, a, i, j);
    }
    forall i | i in there ensures i - a in here {
      assert all[a..b][i - a] == all[i];
    }
    forall i | i in here ensures i + a in there {
      assert all[a..b][i] == all[i + a];
    }
    ShiftFits(here, there, a);
    ShiftFits(there, here, 0 - a);
  }

  lemma WidthOfTheCluster(all: seq<Item>, k: nat, a: nat, b: nat, n: nat)
    requires ByStart(all) && Cluster(all, a, b) && a <= k < b && WidthIs(all[a..b], n)
    ensures WidthAround(all, k, n)
  {
    forall j: nat | Together(all, j, k) ensures Needed(all, j) <= n {
      TogetherIsTheCluster(all, a, b, j, k);
      NeededInTheCluster(all, a, b, j);
    }
    var i :| 0 <= i < |all[a..b]| && Needed(all[a..b], i) == n;
    TogetherIsTheCluster(all, a, b, a + i, k);
    NeededInTheCluster(all, a, b, a + i);
    assert Together(all, a + i, k);
  }

  lemma DrawnToTheWidth(all: seq<Item>, out: seq<Placed>, k: nat)
    requires ByStart(all) && |out| == |all| && k < |out| && Drawn(all, out, k)
    ensures WidthAround(all, k, out[k].columns)
    ensures TakeTime(all) ==> PeakAround(all, k, out[k].columns)
  {
    var a: nat, b: nat :| DrawnIn(all, out, k, a, b);
    InTheDay(all, out, k, a, b);
    WidthOfTheCluster(all, k, a, b, out[k].columns);
    if TakeTime(all) {
      PeakFromWidth(all, k, a, b, out[k].columns);
    }
  }

  lemma PeakFromWidth(all: seq<Item>, k: nat, a: nat, b: nat, n: nat)
    requires ByStart(all) && TakeTime(all) && Cluster(all, a, b) && a <= k < b && WidthIs(all[a..b], n)
    ensures PeakAround(all, k, n)
  {
    WidthIsThePeak(all[a..b], n);
    PeakOfTheCluster(all, k, a, b, n);
  }

  ghost predicate AllDrawn(all: seq<Item>, out: seq<Placed>) {
    forall k: nat :: k < |out| ==> Drawn(all, out, k)
  }

  lemma PartsOfJoin<T>(a: seq<T>, b: seq<T>)
    ensures (a + b)[|a|..|a| + |b|] == b
    ensures forall c, d :: 0 <= c <= d <= |a| ==> (a + b)[c..d] == a[c..d]
  {
  }

  lemma DrawnMore(all: seq<Item>, out: seq<Placed>, more: seq<Placed>, a: nat, b: nat)
    requires |out| == a && Cluster(all, a, b) && ClusterLaid(all[a..b], more) && AllDrawn(all, out)
    ensures |out + more| == b && AllDrawn(all, out + more)
  {
    PartsOfJoin(out, more);
    forall k: nat | k < b ensures Drawn(all, out + more, k) {
      if k < a {
        assert Drawn(all, out, k);
        var c: nat, d: nat :| DrawnIn(all, out, k, c, d);
        assert DrawnIn(all, out + more, k, c, d);
      } else {
        assert DrawnIn(all, out + more, k, a, b);
      }
    }
  }

  /** `clusterEnd` is the latest end in the open cluster; `None` is minus infinity. */
  predicate LatestEnd(cluster: seq<Item>, clusterEnd: Option<int>) {
    if cluster == [] then clusterEnd.None?
    else
      && clusterEnd.Some?
      && (forall i :: 0 <= i < |cluster| ==> cluster[i].stop.end <= clusterEnd.value)
      && (exists i :: 0 <= i < |cluster| && cluster[i].stop.end == clusterEnd.value)
  }

  /** A stop starts after the open cluster exactly when there is a gap before it. */
  lemma GapByClusterEnd(all: seq<Item>, a: nat, m: nat, clusterEnd: int)
    requires ByStart(all) && a < m < |all| && Gap(all, a) && LatestEnd(all[a..m], Some(clusterEnd))
    ensures clusterEnd <= all[m].stop.start <==> Gap(all, m)
  {
    var cluster := all[a..m];
    if clusterEnd <= all[m].stop.start {
      forall i | 0 <= i < m ensures all[i].stop.end <= all[m].stop.start {
        if i < a {
          assert all[i].stop.end <= all[a].stop.start <= all[m].stop.start;
        } else {
          assert cluster[i - a] == all[i];
        }
      }
    } else {
      var i :| 0 <= i < |cluster| && cluster[i].stop.end == clusterEnd;
      assert all[a + i] == cluster[i];
    }
  }

  lemma LatestEndGrows(cluster: seq<Item>, clusterEnd: Option<int>, item: Item)
    requires LatestEnd(cluster, clusterEnd)
    ensures LatestEnd(cluster + [item],
                      Some(if clusterEnd.None? then item.stop.end else Max(clusterEnd.value, item.stop.end)))
  {
    var latest := if clusterEnd.None? then item.stop.end else Max(clusterEnd.value, item.stop.end);
    var grown := cluster + [item];
    assert grown[|cluster|] == item;
    if clusterEnd.Some? && latest != item.stop.end {
      var i :| 0 <= i < |cluster| && cluster[i].stop.end == clusterEnd.value;
      assert grown[i].stop.end == latest;
    }
  }

  /** How far the sweep has got: everything before the open cluster is drawn, and the open cluster runs up to `i`. */
  ghost predicate Swept(all: seq<Item>, out: seq<Placed>, cluster: seq<Item>, clusterEnd: Option<int>, i: nat) {
    && |out| <= i <= |all|
    && cluster == all[|out|..i] && LatestEnd(cluster, clusterEnd)
    && (i > 0 ==> cluster != [] && Gap(all, |out|))
    && (forall m :: |out| < m < i ==> !Gap(all, m))
    && AllDrawn(all, out)
  }

  lemma SweepOpens(all: seq<Item>, out: seq<Placed>, i: nat)
    requires |out| == i < |all| && Gap(all, i) && AllDrawn(all, out)
    ensures Swept(all, out, [all[i]], Some(all[i].stop.end), i + 1)
  {
    assert all[i..i + 1] == [all[i]];
    assert [all[i]][0].stop.end == all[i].stop.end;
  }

  /** The stop at `i` opens a new cluster exactly when the source's test says so. */
  lemma SweepCloses(all: seq<Item>, out: seq<Placed>, cluster: seq<Item>, clusterEnd: Option<int>, i: nat)
    requires ByStart(all) && Swept(all, out, cluster, clusterEnd, i) && cluster != []
    ensures i < |all| ==> (clusterEnd.value <= all[i].stop.start <==> Gap(all, i))
    ensures ByStart(cluster)
  {
    if i < |all| {
      GapByClusterEnd(all, |out|, i, clusterEnd.value);
    }
  }

  lemma SweepFlushes(
    all: seq<Item>, out: seq<Placed>, cluster: seq<Item>, clusterEnd: Option<int>, i: nat, placed: seq<Placed>)
    requires Swept(all, out, cluster, clusterEnd, i) && cluster != [] && ClusterLaid(cluster, placed)
    requires i < |all| ==> Gap(all, i)
    ensures |out + placed| == i && AllDrawn(all, out + placed)
  {
    DrawnMore(all, out, placed, |out|, i);
  }

  lemma SweepGrows(all: seq<Item>, out: seq<Placed>, cluster: seq<Item>, clusterEnd: int, i: nat)
    requires Swept(all, out, cluster, Some(clusterEnd), i) && i < |all| && cluster != [] && !Gap(all, i)
    ensures Swept(all, out, cluster + [all[i]], Some(Max(clusterEnd, all[i].stop.end)), i + 1)
  {
    LatestEndGrows(cluster, Some(clusterEnd), all[i]);
    assert all[|out|..i + 1] == cluster + [all[i]];
  }

  function ItemsOf(placed: seq<Placed>): (r: seq<Item>)
    ensures |r| == |placed| && forall k :: 0 <= k < |r| ==> r[k] == placed[k].item
  {
    seq(|placed|, k requires 0 <= k < |placed| => placed[k].item)
  }

  /** Every stop of the day by start, those that start together in route order. */
  function SortedByStart(routes: seq<seq<GridStop>>): (all: seq<Item>)
    ensures multiset(all) == multiset(Flat(routes)) && ByStart(all)
  {
    SortKeeps(Flat(routes), StartLe);
    SortSorts(Flat(routes), StartLe);
    SortedMeansByStart(Sort(Flat(routes), StartLe));
    Sort(Flat(routes), StartLe)
  }

  lemma SortedMeansByStart(all: seq<Item>)
    requires SortedBy(all, StartLe)
    ensures ByStart(all)
  {
    forall i, j | 0 <= i < j < |all| ensures all[i].stop.start <= all[j].stop.start {
      assert StartLe(all[i], all[j]);
    }
  }

  /** No two blocks meet, and each is drawn in one of exactly as many columns as some stop of its cluster needs
      when it starts: when every stop takes time, as many as run at once at the cluster's busiest moment. */
  ghost predicate LaidOut(all: seq<Item>, out: seq<Placed>) {
    && (forall j, k :: 0 <= j < k < |out| ==> Apart(out[j], out[k]))
    && (forall k :: 0 <= k < |out| ==> out[k].column < out[k].columns)
    && (forall k :: 0 <= k < |out| ==> WidthAround(all, k, out[k].columns))
    && (TakeTime(all) ==> forall k :: 0 <= k < |out| ==> PeakAround(all, k, out[k].columns))
  }

  lemma Conclude(all: seq<Item>, out: seq<Placed>)
    requires ByStart(all) && |out| == |all| && AllDrawn(all, out)
    ensures ItemsOf(out) == all && LaidOut(all, out)
  {
    forall k: nat | k < |out| ensures out[k].item == all[k] && out[k].column < out[k].columns {
      assert Drawn(all, out, k);
      var a: nat, b: nat :| DrawnIn(all, out, k, a, b);
      InTheDay(all, out, k, a, b);
    }
    forall j: nat, k: nat | j < k < |out| ensures Apart(out[j], out[k]) {
      assert Drawn(all, out, j) && Drawn(all, out, k);
      DrawnApart(all, out, j, k);
    }
    forall k: nat | k < |out|
      ensures WidthAround(all, k, out[k].columns)
      ensures TakeTime(all) ==> PeakAround(all, k, out[k].columns)
    {
      assert Drawn(all, out, k);
      DrawnToTheWidth(all, out, k);
    }
  }

  /** Every stop is drawn exactly once, in order of start, whatever the lengths. */
  method Layout(routes: seq<seq<GridStop>>) returns (out: seq<Placed>)
    ensures multiset(ItemsOf(out)) == multiset(Flat(routes)) && ByStart(ItemsOf(out))
    ensures forall item :: multiset(ItemsOf(out))[item] == Listed(routes, item)
    ensures LaidOut(ItemsOf(out), out)
  {
    forall item ensures multiset(Flat(routes))[item] == Listed(routes, item) {
      EveryStopIsListed(routes, item);
    }
    var all := SortedByStart(routes);
    out := [];
    var cluster: seq<Item> := [];
    var clusterEnd: Option<int> := None;
    var i := 0;
    while i < |all|
      invariant 0 <= i <= |all|
      invariant Swept(all, out, cluster, clusterEnd, i)
    {
      var item := all[i];
      if cluster != [] {
        SweepCloses(all, out, cluster, clusterEnd, i);
        if clusterEnd.value <= item.stop.start {
          var placed := Flush(cluster);
          SweepFlushes(all, out, cluster, clusterEnd, i, placed);
          out := out + placed;
          cluster := [];
          clusterEnd := None;
        }
      }
      if cluster == [] {
        SweepOpens(all, out, i);
      } else {
        SweepGrows(all, out, cluster, clusterEnd.value, i);
      }
      cluster := cluster + [item];
      clusterEnd := Some(if clusterEnd.None? then item.stop.end else Max(clusterEnd.value, item.stop.end));
      i := i + 1;
    }
    if cluster != [] {
      SweepCloses(all, out, cluster, clusterEnd, i);
      var placed := Flush(cluster);
      SweepFlushes(all, out, cluster, clusterEnd, i, placed);
      out := out + placed;
    }
    Conclude(all, out);
  }

  /** A stop that takes no time can cost a column in which nothing ever runs. */
  lemma AnInstantCanCostAColumn(placed: seq<Placed>)
    requires ClusterLaid([Item(0, GridStop("a", 0, 60)), Item(1, GridStop("b", 0, 0))], placed)
    ensures placed[0].columns >= 2
    ensures !PeakIs([Item(0, GridStop("a", 0, 60)), Item(1, GridStop("b", 0, 0))], placed[0].columns)
  {
    var items := [Item(0, GridStop("a", 0, 60)), Item(1, GridStop("b", 0, 0))];
    assert OnAt(items, 0) == {0};
    assert placed[0].column == Columns(placed)[0] && placed[1].column == Columns(placed)[1];
  }
}
