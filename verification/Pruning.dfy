/** Which arcs the routing model may use when a day is large: each stop keeps its nearest neighbours, in
    either direction, and every arc to and from the depot stays (scheduler/day_planner.py). */
module Pruning {
  import opened Collections
  import opened Domain

  type Arc = (nat, nat)

  predicate Square(matrix: seq<seq<nat>>) { forall i :: 0 <= i < |matrix| ==> |matrix[i]| == |matrix| }

  /** `a` comes before `b` by travel time from a stop, equal times by index. */
  predicate Closer(row: seq<nat>, a: nat, b: nat)
    requires a < |row| && b < |row|
  {
    row[a] < row[b] || (row[a] == row[b] && a < b)
  }

  /** The other stops that are closer to `i` than `j` is. */
  function CloserThan(matrix: seq<seq<nat>>, i: nat, j: nat): set<nat>
    requires Square(matrix) && i < |matrix| && j < |matrix|
  {
    set l: nat | 1 <= l < |matrix| && l != i && Closer(matrix[i], l, j)
  }

  /** `j` is among the `k` nearest neighbours of `i`. */
  predicate IsNear(matrix: seq<seq<nat>>, k: nat, i: nat, j: nat)
    requires Square(matrix) && i < |matrix| && j < |matrix|
  {
    |CloserThan(matrix, i, j)| < k
  }

  /** What is kept, said without sorting: `None` prunes nothing. */
  predicate IsKept(matrix: seq<seq<nat>>, nearest: Option<nat>, pruneAbove: nat, i: nat, j: nat)
    requires Square(matrix)
  {
    && i < |matrix| && j < |matrix| && i != j
    && (nearest.None? || |matrix| - 1 <= pruneAbove || i == 0 || j == 0
        || IsNear(matrix, nearest.value, i, j) || IsNear(matrix, nearest.value, j, i))
  }

  // ------------------------------------------------------------------ by sorting

  function Minutes(row: seq<nat>, a: nat): nat { if a < |row| then row[a] else 0 }

  /** Sorting an ascending list by travel time, stably, is sorting by time and then index. */
  function ByTravel(row: seq<nat>): (nat, nat) -> bool {
    (a: nat, b: nat) => Minutes(row, a) < Minutes(row, b) || (Minutes(row, a) == Minutes(row, b) && a <= b)
  }

  predicate Ordered(row: seq<nat>, s: seq<nat>) {
    && (forall i :: 0 <= i < |s| ==> s[i] < |row|)
    && (forall i, j :: 0 <= i < j < |s| ==> Closer(row, s[i], s[j]))
  }

  /** The neighbours of stop `i`, nearest first. */
  method Neighbours(matrix: seq<seq<nat>>, i: nat) returns (s: seq<nat>)
    requires Square(matrix) && i < |matrix|
    ensures Ordered(matrix[i], s) && forall j :: j in s <==> 1 <= j < |matrix| && j != i
  {
    var others: seq<nat> := [];
    for j := 1 to |matrix|
      invariant Distinct(others)
      invariant forall y :: y in others <==> 1 <= y < j && y != i
    {
      assert forall x :: 0 <= x < |others| ==> others[x] in others;
      if j != i {
        others := others + [j];
      }
    }
    s := Sort(others, ByTravel(matrix[i]));
    SortedByTravel(matrix[i], others);
  }

  lemma SortedByTravel(row: seq<nat>, others: seq<nat>)
    requires Distinct(others) && forall j :: j in others ==> j < |row|
    ensures Ordered(row, Sort(others, ByTravel(row)))
    ensures forall j :: j in Sort(others, ByTravel(row)) <==> j in others
  {
    var le, s := ByTravel(row), Sort(others, ByTravel(row));
    assert TotalPreorder(le);
    SortKeeps(others, le);
    SortSorts(others, le);
    MultisetDistinct(others, s);
    forall a | 0 <= a < |s| ensures s[a] in others {
      assert s[a] in s;
    }
    forall a, b | 0 <= a < b < |s| ensures Closer(row, s[a], s[b]) {
      assert le(s[a], s[b]) && s[a] != s[b];
    }
  }

  lemma OrderedPlaces(row: seq<nat>, s: seq<nat>, m: nat, at: nat)
    requires Ordered(row, s) && m < |s| && at < |s|
    ensures Closer(row, s[m], s[at]) <==> m < at
  {
  }

  lemma OrderedIsDistinct(row: seq<nat>, s: seq<nat>)
    requires Ordered(row, s)
    ensures Distinct(s)
  {
  }

  /** A neighbour's place in the order is the number of closer ones. */
  lemma PlaceIsRank(matrix: seq<seq<nat>>, i: nat, s: seq<nat>, at: nat)
    requires Square(matrix) && i < |matrix| && at < |s|
    requires Ordered(matrix[i], s) && forall j :: j in s <==> 1 <= j < |matrix| && j != i
    ensures |CloserThan(matrix, i, s[at])| == at
  {
    var closer := s[..at];
    OrderedIsDistinct(matrix[i], s);
    DistinctSize(closer);
    forall l ensures l in SetOf(closer) <==> l in CloserThan(matrix, i, s[at]) {
      if l in CloserThan(matrix, i, s[at]) {
        assert l in s;
        var m :| 0 <= m < |s| && s[m] == l;
        OrderedPlaces(matrix[i], s, m, at);
        assert closer[m] == l;
      }
      if l in closer {
        var m :| 0 <= m < at && closer[m] == l;
        assert s[m] == l && s[m] in s && Closer(matrix[i], s[m], s[at]);
      }
    }
    assert SetOf(closer) == CloserThan(matrix, i, s[at]);
  }

  lemma NearestAreNear(matrix: seq<seq<nat>>, k: nat, i: nat, s: seq<nat>, j: nat)
    requires Square(matrix) && i < |matrix|
    requires Ordered(matrix[i], s) && forall j :: j in s <==> 1 <= j < |matrix| && j != i
    ensures j in s[..if k < |s| then k else |s|] <==> 1 <= j < |matrix| && j != i && IsNear(matrix, k, i, j)
  {
    var n := if k < |s| then k else |s|;
    if j in s[..n] {
      var at :| 0 <= at < n && s[at] == j;
      assert s[at] in s;
      PlaceIsRank(matrix, i, s, at);
    }
    if 1 <= j < |matrix| && j != i && IsNear(matrix, k, i, j) {
      assert j in s;
      var at :| 0 <= at < |s| && s[at] == j;
      PlaceIsRank(matrix, i, s, at);
      assert s[..n][at] == j;
    }
  }

  /** Either end of a pair has the other among its nearest, over the stops looked at so far. */
  predicate NearFrom(matrix: seq<seq<nat>>, k: nat, upTo: nat, i: nat, j: nat)
    requires Square(matrix)
  {
    && 1 <= i < |matrix| && 1 <= j < |matrix| && i != j
    && ((i < upTo && IsNear(matrix, k, i, j)) || (j < upTo && IsNear(matrix, k, j, i)))
  }

  method PrunableArcs(matrix: seq<seq<nat>>, nearest: Option<nat>, pruneAbove: nat) returns (allowed: set<Arc>)
    requires Square(matrix) && matrix != []
    ensures forall i: nat, j: nat :: (i, j) in allowed <==> IsKept(matrix, nearest, pruneAbove, i, j)
  {
    var n := |matrix|;
    if nearest.None? || n - 1 <= pruneAbove {
      return set i: nat, j: nat | 0 <= i < n && 0 <= j < n && i != j :: (i, j);
    }
    var k := nearest.value;
    var depot: set<Arc> := (set j: nat | 1 <= j < n :: (0, j)) + (set j: nat | 1 <= j < n :: (j, 0));
    assert forall i: nat, j: nat :: (i, j) in depot <==> i < n && j < n && i != j && (i == 0 || j == 0);
    allowed := depot;
    for i := 1 to n
      invariant forall a: nat, b: nat :: (a, b) in allowed <==> (a, b) in depot || NearFrom(matrix, k, i, a, b)
    {
      var s := Neighbours(matrix, i);
      var close := s[..if k < |s| then k else |s|];
      forall j: nat ensures j in close <==> 1 <= j < n && j != i && IsNear(matrix, k, i, j) {
        NearestAreNear(matrix, k, i, s, j);
      }
      allowed := allowed + (set j: nat | j in close :: (i, j)) + (set j: nat | j in close :: (j, i));
    }
  }

  // ---------------------------------------------------------- what pruning keeps

  /** Pruning never lets a pair through one way only, and never touches the depot. */
  lemma KeptBothWays(matrix: seq<seq<nat>>, nearest: Option<nat>, pruneAbove: nat, i: nat, j: nat)
    requires Square(matrix)
    ensures IsKept(matrix, nearest, pruneAbove, i, j) <==> IsKept(matrix, nearest, pruneAbove, j, i)
    ensures 1 <= j < |matrix| ==> IsKept(matrix, nearest, pruneAbove, 0, j)
  {
  }

  /** With as many neighbours as there are other stops, nothing is pruned. */
  lemma EnoughNeighboursPruneNothing(matrix: seq<seq<nat>>, k: nat, pruneAbove: nat, i: nat, j: nat)
    requires Square(matrix) && k + 2 >= |matrix|
    ensures IsKept(matrix, Some(k), pruneAbove, i, j) <==> i < |matrix| && j < |matrix| && i != j
  {
    if 1 <= i < |matrix| && 1 <= j < |matrix| && i != j {
      FewAreCloser(matrix, i, j);
    }
  }

  function Below(n: nat): (r: set<nat>)
    ensures |r| == n && forall l: nat :: l in r <==> l < n
  {
    if n == 0 then {} else Below(n - 1) + {n - 1}
  }

  lemma FewAreCloser(matrix: seq<seq<nat>>, i: nat, j: nat)
    requires Square(matrix) && 1 <= i < |matrix| && 1 <= j < |matrix| && i != j
    ensures |CloserThan(matrix, i, j)| + 3 <= |matrix|
  {
    var closer := CloserThan(matrix, i, j);
    assert 0 !in closer && i !in closer && j !in closer;
    assert |closer + {0} + {i} + {j}| == |closer| + 3;
    SubsetSize(closer + {0} + {i} + {j}, Below(|matrix|));
  }

  lemma {:induction false} SubsetSize(a: set<nat>, b: set<nat>)
    requires a <= b
    ensures |a| <= |b|
  {
    if x :| x in a {
      SubsetSize(a - {x}, b - {x});
    } else {
      assert !exists x :: x in a;
      assert a == {};
    }
  }

  /** No stop is stranded: as long as `k` is positive each keeps an arc to its nearest other stop. */
  lemma NobodyIsStranded(matrix: seq<seq<nat>>, k: nat, pruneAbove: nat, i: nat) returns (j: nat)
    requires Square(matrix) && k > 0 && 1 <= i < |matrix| && |matrix| > 2
    ensures 1 <= j < |matrix| && j != i
    ensures IsKept(matrix, Some(k), pruneAbove, i, j) && IsKept(matrix, Some(k), pruneAbove, j, i)
    ensures forall l: nat :: 1 <= l < |matrix| && l != i ==> matrix[i][j] <= matrix[i][l]
  {
    j := NearestOf(matrix, i, |matrix|);
    assert CloserThan(matrix, i, j) == {} by {
      forall l: nat ensures l !in CloserThan(matrix, i, j) {
        assert 1 <= l < |matrix| && l != i ==> IsAhead(matrix[i], j, l);
      }
    }
    forall l: nat | 1 <= l < |matrix| && l != i ensures matrix[i][j] <= matrix[i][l] {
      assert IsAhead(matrix[i], j, l);
    }
  }

  predicate IsAhead(row: seq<nat>, j: nat, l: nat)
    requires j < |row| && l < |row|
  {
    l == j || Closer(row, j, l)
  }

  lemma {:induction false} NearestOf(matrix: seq<seq<nat>>, i: nat, n: nat) returns (j: nat)
    requires Square(matrix) && 1 <= i < |matrix| && (if i == 1 then 2 else 1) < n <= |matrix|
    ensures 1 <= j < n && j != i
    ensures forall l: nat :: 1 <= l < n && l != i ==> IsAhead(matrix[i], j, l)
    decreases n
  {
    if n - 1 == (if i == 1 then 2 else 1) {
      j := n - 1;
    } else {
      var before := NearestOf(matrix, i, n - 1);
      j := if n - 1 != i && Closer(matrix[i], n - 1, before) then n - 1 else before;
      forall l: nat | 1 <= l < n && l != i ensures IsAhead(matrix[i], j, l) {
        assert l < n - 1 ==> IsAhead(matrix[i], before, l);
      }
    }
  }
}
