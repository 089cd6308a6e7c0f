/** The scaled objective compares exactly like the tuple (cost, people deployed, sum of starts, worker
    order) (scheduler/day_planner.py). The cost in cents is any function of the assignment. */
module Objective {
  import opened Domain
  import opened DayPlanner

  function SumRow(f: (nat, nat) -> int, i: nat, n: nat): int {
    if n == 0 then 0 else SumRow(f, i, n - 1) + f(i, n - 1)
  }

  /** The sum of `f` over `m` rows and `n` columns. */
  function SumGrid(f: (nat, nat) -> int, m: nat, n: nat): int {
    if m == 0 then 0 else SumGrid(f, m - 1, n) + SumRow(f, m - 1, n)
  }

  lemma {:induction false} RowBounded(f: (nat, nat) -> int, i: nat, n: nat, b: nat)
    requires forall k: nat :: k < n ==> 0 <= f(i, k) <= b
    ensures 0 <= SumRow(f, i, n) <= n * b
  {
    if n > 0 {
      RowBounded(f, i, n - 1, b);
      assert n * b == (n - 1) * b + b;
    }
  }

  lemma {:induction false} GridBounded(f: (nat, nat) -> int, m: nat, n: nat, b: nat)
    requires forall i: nat, k: nat :: i < m && k < n ==> 0 <= f(i, k) <= b
    ensures 0 <= SumGrid(f, m, n) <= m * n * b
  {
    if m > 0 {
      GridBounded(f, m - 1, n, b);
      RowBounded(f, m - 1, n, b);
      Distributes(m - 1, n * b);
      Associates(m, n, b);
      Associates(m - 1, n, b);
    }
  }

  lemma Distributes(m: nat, x: int)
    ensures (m + 1) * x == m * x + x
  {
  }

  lemma Associates(a: int, b: int, c: int)
    ensures a * (b * c) == a * b * c
  {
  }

  function Deployed(p: Problem, a: Assignment): int {
    SumGrid((i: nat, k: nat) => if a.assign(i, k) then 1 else 0, |p.workers|, |p.vans|)
  }

  function Earliness(p: Problem, a: Assignment): int {
    SumGrid(a.start, |p.jobs|, |p.vans|)
  }

  function WorkerOrder(p: Problem, a: Assignment): int {
    var crews := |p.vans|;
    SumGrid((i: nat, k: nat) => if a.assign(i, k) then i * crews + k else 0, |p.workers|, crews)
  }

  // -------------------------------------------------------- what the sums measure

  lemma {:induction false} RowMoves(f: (nat, nat) -> int, g: (nat, nat) -> int, i: nat, n: nat, k: nat)
    requires forall l: nat :: l < n && l != k ==> f(i, l) == g(i, l)
    ensures SumRow(f, i, n) - SumRow(g, i, n) == if k < n then f(i, k) - g(i, k) else 0
  {
    if n > 0 {
      RowMoves(f, g, i, n - 1, k);
    }
  }

  /** Changing one entry changes the sum by as much. */
  lemma {:induction false} GridMoves(f: (nat, nat) -> int, g: (nat, nat) -> int, m: nat, n: nat, i: nat, k: nat)
    requires forall h: nat, l: nat :: h < m && l < n && (h != i || l != k) ==> f(h, l) == g(h, l)
    ensures SumGrid(f, m, n) - SumGrid(g, m, n) == if i < m && k < n then f(i, k) - g(i, k) else 0
  {
    if m > 0 {
      GridMoves(f, g, m - 1, n, i, k);
      RowMoves(f, g, m - 1, n, if m - 1 == i then k else n);
    }
  }

  /** The seats taken: each person on each crew they ride with. */
  function Seats(p: Problem, a: Assignment): set<(int, int)> {
    set i, k | 0 <= i < |p.workers| && 0 <= k < |p.vans| && a.assign(i, k) :: (i, k)
  }

  function SeatsUpTo(a: Assignment, m: nat, n: nat): set<(int, int)> {
    set i, k | 0 <= i < m && 0 <= k < n && a.assign(i, k) :: (i, k)
  }

  function SeatsInRow(a: Assignment, i: nat, n: nat): set<(int, int)> {
    set k | 0 <= k < n && a.assign(i, k) :: (i, k)
  }

  lemma {:induction false} RowCounts(a: Assignment, i: nat, n: nat)
    ensures SumRow((h: nat, k: nat) => if a.assign(h, k) then 1 else 0, i, n) == |SeatsInRow(a, i, n)|
  {
    if n > 0 {
      RowCounts(a, i, n - 1);
      var rest := SeatsInRow(a, i, n - 1);
      assert (i, n - 1) !in rest;
      assert SeatsInRow(a, i, n) == if a.assign(i, n - 1) then rest + {(i, n - 1)} else rest;
    }
  }

  lemma {:induction false} GridCounts(a: Assignment, m: nat, n: nat)
    ensures SumGrid((h: nat, k: nat) => if a.assign(h, k) then 1 else 0, m, n) == |SeatsUpTo(a, m, n)|
  {
    if m == 0 {
      assert SeatsUpTo(a, 0, n) == {};
    } else {
      GridCounts(a, m - 1, n);
      RowCounts(a, m - 1, n);
      LastRowOfSeats(a, m, n);
    }
  }

  lemma LastRowOfSeats(a: Assignment, m: nat, n: nat)
    requires m > 0
    ensures |SeatsUpTo(a, m, n)| == |SeatsUpTo(a, m - 1, n)| + |SeatsInRow(a, m - 1, n)|
  {
    var rest, row := SeatsUpTo(a, m - 1, n), SeatsInRow(a, m - 1, n);
    assert SeatsUpTo(a, m, n) == rest + row;
  }

  /** The second digit counts the seats taken, so of two answers of one cost the one with fewer riders wins. */
  lemma DeployedCountsSeats(p: Problem, a: Assignment)
    ensures Deployed(p, a) == |Seats(p, a)|
  {
    GridCounts(a, |p.workers|, |p.vans|);
    assert Seats(p, a) == SeatsUpTo(a, |p.workers|, |p.vans|);
  }

  /** Starting one visit later, all else the same, is as much worse in the third digit. */
  lemma LaterStartCostsMore(p: Problem, a: Assignment, b: Assignment, j: nat, k: nat)
    requires j < |p.jobs| && k < |p.vans|
    requires forall h: nat, l: nat :: h < |p.jobs| && l < |p.vans| && (h != j || l != k) ==>
               a.start(h, l) == b.start(h, l)
    ensures Earliness(p, b) - Earliness(p, a) == b.start(j, k) - a.start(j, k)
  {
    GridMoves(b.start, a.start, |p.jobs|, |p.vans|, j, k);
  }

  /** The two answers seat everyone alike, but that one seat of `a` is free in `b` and one of `b` in `a`. */
  predicate Reseats(p: Problem, a: Assignment, b: Assignment, from: (nat, nat), to: (nat, nat)) {
    && from != to && from in Seats(p, a) && from !in Seats(p, b) && to in Seats(p, b) && to !in Seats(p, a)
    && Seats(p, a) - {from} == Seats(p, b) - {to}
  }

  /** An earlier-named person, or the same on an earlier van. */
  predicate SeatBefore(x: (nat, nat), y: (nat, nat)) { x.0 < y.0 || (x.0 == y.0 && x.1 < y.1) }

  function RankIn(a: Assignment, crews: nat): (nat, nat) -> int {
    (i: nat, k: nat) => if a.assign(i, k) then i * crews + k else 0
  }

  /** Moving one seat improves the last digit exactly when it goes to an earlier-named person, or to an earlier van. */
  lemma EarlierSeatWins(p: Problem, a: Assignment, b: Assignment, from: (nat, nat), to: (nat, nat))
    requires Reseats(p, a, b, from, to)
    ensures WorkerOrder(p, b) < WorkerOrder(p, a) <==> SeatBefore(to, from)
  {
    var workers, crews := |p.workers|, |p.vans|;
    var f, g := RankIn(a, crews), RankIn(b, crews);
    var without := (i: nat, k: nat) => if (i, k) == from then 0 else f(i, k);
    forall i: nat, k: nat | i < workers && k < crews && (i != to.0 || k != to.1) ensures without(i, k) == g(i, k) {
      assert (i, k) in Seats(p, a) - {from} <==> (i, k) in Seats(p, b) - {to};
    }
    GridMoves(f, without, workers, crews, from.0, from.1);
    GridMoves(g, without, workers, crews, to.0, to.1);
    RankOrder(from, to, crews);
  }

  lemma RankOrder(x: (nat, nat), y: (nat, nat), crews: nat)
    requires x.1 < crews && y.1 < crews
    ensures y.0 * crews + y.1 < x.0 * crews + x.1 <==> SeatBefore(y, x)
  {
    if y.0 < x.0 {
      GapTimes(y.0, 1, crews);
      GapTimes(y.0 + 1, x.0 - y.0 - 1, crews);
    } else if x.0 < y.0 {
      GapTimes(x.0, 1, crews);
      GapTimes(x.0 + 1, y.0 - x.0 - 1, crews);
    }
  }

  function DeployedCeiling(p: Problem): nat { |p.workers| * |p.vans| }

  function EarlinessCeiling(p: Problem): nat { |p.jobs| * |p.vans| * MINUTES_PER_DAY }

  function WorkerCeiling(p: Problem): nat {
    var seats := |p.workers| * |p.vans|;
    seats * (seats + 1)
  }

  function TimingOrder(p: Problem, a: Assignment): int {
    Earliness(p, a) * (WorkerCeiling(p) + 1) + WorkerOrder(p, a)
  }

  function TimingCeiling(p: Problem): nat { (EarlinessCeiling(p) + 1) * (WorkerCeiling(p) + 1) }

  function TieBreak(p: Problem, a: Assignment): int {
    Deployed(p, a) * (TimingCeiling(p) + 1) + TimingOrder(p, a)
  }

  function TieBreakCeiling(p: Problem): nat { (DeployedCeiling(p) + 1) * (TimingCeiling(p) + 1) }

  /** What the solver minimises. */
  function Scaled(p: Problem, cost: Assignment -> int, a: Assignment): int {
    cost(a) * (TieBreakCeiling(p) + 1) + TieBreak(p, a)
  }

  /** The order it stands for. */
  predicate Better(p: Problem, cost: Assignment -> int, a: Assignment, b: Assignment) {
    || cost(a) < cost(b)
    || (cost(a) == cost(b) && Deployed(p, a) < Deployed(p, b))
    || (cost(a) == cost(b) && Deployed(p, a) == Deployed(p, b) && Earliness(p, a) < Earliness(p, b))
    || (cost(a) == cost(b) && Deployed(p, a) == Deployed(p, b) && Earliness(p, a) == Earliness(p, b)
        && WorkerOrder(p, a) < WorkerOrder(p, b))
  }

  /** One digit of a mixed-radix number outweighs everything below it. */
  lemma DigitsDecide(x: int, u: int, y: int, v: int, ceiling: nat)
    requires 0 <= u <= ceiling && 0 <= v <= ceiling
    ensures x * (ceiling + 1) + u < y * (ceiling + 1) + v <==> x < y || (x == y && u < v)
  {
    if x < y {
      BiggerDigit(x, y, ceiling);
    } else if y < x {
      BiggerDigit(y, x, ceiling);
    }
  }

  lemma GapTimes(x: int, gap: nat, base: nat)
    ensures (x + gap) * base == x * base + gap * base && gap * base >= 0
  {
  }

  lemma BiggerDigit(x: int, y: int, ceiling: nat)
    requires x < y
    ensures x * (ceiling + 1) + ceiling < y * (ceiling + 1)
  {
    GapTimes(x, 1, ceiling + 1);
    GapTimes(x + 1, y - x - 1, ceiling + 1);
  }

  lemma DigitBounded(x: int, u: int, top: nat, ceiling: nat)
    requires 0 <= x <= top && 0 <= u <= ceiling
    ensures 0 <= x * (ceiling + 1) + u <= (top + 1) * (ceiling + 1)
  {
    assert (top - x) * (ceiling + 1) >= 0;
  }

  lemma RankBelow(i: nat, k: nat, workers: nat, crews: nat)
    requires i < workers && k < crews
    ensures i * crews + k <= workers * crews
  {
    GapTimes(i, 1, crews);
    GapTimes(i + 1, workers - i - 1, crews);
  }

  lemma DeployedBounded(p: Problem, a: Assignment)
    ensures 0 <= Deployed(p, a) <= DeployedCeiling(p)
  {
    GridBounded((i: nat, k: nat) => if a.assign(i, k) then 1 else 0, |p.workers|, |p.vans|, 1);
  }

  lemma EarlinessBounded(p: Problem, a: Assignment)
    requires WindowRules(p, a)
    ensures 0 <= Earliness(p, a) <= EarlinessCeiling(p)
  {
    GridBounded(a.start, |p.jobs|, |p.vans|, MINUTES_PER_DAY);
  }

  lemma WorkerOrderBounded(p: Problem, a: Assignment)
    ensures 0 <= WorkerOrder(p, a) <= WorkerCeiling(p)
  {
    var workers, crews := |p.workers|, |p.vans|;
    var rank := (i: nat, k: nat) => if a.assign(i, k) then i * crews + k else 0;
    forall i: nat, k: nat | i < workers && k < crews ensures 0 <= rank(i, k) <= workers * crews {
      RankBelow(i, k, workers, crews);
    }
    var seats := workers * crews;
    GridBounded(rank, workers, crews, seats);
    RoomAbove(seats);
  }

  lemma RoomAbove(n: nat)
    ensures n * n <= n * (n + 1)
  {
  }

  lemma TermsBounded(p: Problem, a: Assignment)
    requires WindowRules(p, a)
    ensures 0 <= Deployed(p, a) <= DeployedCeiling(p)
    ensures 0 <= Earliness(p, a) <= EarlinessCeiling(p)
    ensures 0 <= WorkerOrder(p, a) <= WorkerCeiling(p)
  {
    DeployedBounded(p, a);
    EarlinessBounded(p, a);
    WorkerOrderBounded(p, a);
  }

  /** The scaled objective is exactly lexicographic: no tie-break outweighs one cent, none outweighs a
      more important one, and equal values mean equal in all four. */
  lemma ScaledIsLexicographic(p: Problem, cost: Assignment -> int, a: Assignment, b: Assignment)
    requires Feasible(p, a) && Feasible(p, b)
    ensures Scaled(p, cost, a) < Scaled(p, cost, b) <==> Better(p, cost, a, b)
    ensures Scaled(p, cost, a) == Scaled(p, cost, b) <==> !Better(p, cost, a, b) && !Better(p, cost, b, a)
  {
    TermsBounded(p, a);
    TermsBounded(p, b);
    CompareScaled(p, cost, a, b);
    CompareScaled(p, cost, b, a);
  }

  lemma CompareScaled(p: Problem, cost: Assignment -> int, a: Assignment, b: Assignment)
    requires 0 <= Deployed(p, a) <= DeployedCeiling(p) && 0 <= Deployed(p, b) <= DeployedCeiling(p)
    requires 0 <= Earliness(p, a) <= EarlinessCeiling(p) && 0 <= Earliness(p, b) <= EarlinessCeiling(p)
    requires 0 <= WorkerOrder(p, a) <= WorkerCeiling(p) && 0 <= WorkerOrder(p, b) <= WorkerCeiling(p)
    ensures Scaled(p, cost, a) < Scaled(p, cost, b) <==> Better(p, cost, a, b)
  {
    var w, t, tb := WorkerCeiling(p), TimingCeiling(p), TieBreakCeiling(p);
    DigitBounded(Earliness(p, a), WorkerOrder(p, a), EarlinessCeiling(p), w);
    DigitBounded(Earliness(p, b), WorkerOrder(p, b), EarlinessCeiling(p), w);
    DigitsDecide(Earliness(p, a), WorkerOrder(p, a), Earliness(p, b), WorkerOrder(p, b), w);
    DigitBounded(Deployed(p, a), TimingOrder(p, a), DeployedCeiling(p), t);
    DigitBounded(Deployed(p, b), TimingOrder(p, b), DeployedCeiling(p), t);
    DigitsDecide(Deployed(p, a), TimingOrder(p, a), Deployed(p, b), TimingOrder(p, b), t);
    DigitsDecide(cost(a), TieBreak(p, a), cost(b), TieBreak(p, b), tb);
    EqualDigits(Earliness(p, a), WorkerOrder(p, a), Earliness(p, b), WorkerOrder(p, b), w);
    EqualDigits(Deployed(p, a), TimingOrder(p, a), Deployed(p, b), TimingOrder(p, b), t);
  }

  lemma EqualDigits(x: int, u: int, y: int, v: int, ceiling: nat)
    requires 0 <= u <= ceiling && 0 <= v <= ceiling
    ensures x * (ceiling + 1) + u == y * (ceiling + 1) + v <==> x == y && u == v
  {
    DigitsDecide(x, u, y, v, ceiling);
    DigitsDecide(y, v, x, u, ceiling);
  }
}
