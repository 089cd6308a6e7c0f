/** Any number of writers committing to one directory at once: each compares HEAD, then writes its version
    file, then replaces HEAD, and these acts interleave in any order (persistence/log.py). */
module FileProtocol {
  import opened Collections
  import opened Domain
  import opened PlanVersions

  /** How far a commit has got. `checkedAt` counts the moves of HEAD made before the writer compared it. */
  datatype Phase =
    | Checked(checkedAt: nat)
    | Written(checkedAt: nat)
    | Done(checkedAt: nat)
    | TurnedAway(actual: Option<PlanId>)

  datatype Writer = Writer(plan: Plan, expected: Option<PlanId>, phase: Phase)

  /** HEAD replaced: by whom, with what, and how many moves there had been when that writer looked. */
  datatype Move = Move(who: nat, plan: Plan, checkedAt: nat)

  /** The version files and HEAD, the writers, and what has been written and moved so far. */
  datatype Directory = Directory(
    versions: Versions, head: Option<PlanId>, writers: map<nat, Writer>, writes: seq<Plan>, moves: seq<Move>)

  datatype Act =
    | Check(who: nat, plan: Plan, expected: Option<PlanId>)
    | WriteVersion(who: nat)
    | MoveHead(who: nat)

  predicate Enabled(d: Directory, a: Act) {
    if a.Check? then a.who !in d.writers
    else
      && a.who in d.writers
      && if a.WriteVersion? then d.writers[a.who].phase.Checked? else d.writers[a.who].phase.Written?
  }

  function Step(d: Directory, a: Act): Directory
    requires Enabled(d, a)
  {
    match a
    case Check(who, plan, expected) =>
      var actual := FileHead(Stores(d.versions, d.head));
      var phase := if actual == expected then Checked(|d.moves|) else TurnedAway(actual);
      d.(writers := d.writers[who := Writer(plan, expected, phase)])
    case WriteVersion(who) =>
      var w := d.writers[who];
      d.(versions := d.versions[w.plan.id := w.plan], writes := d.writes + [w.plan],
          writers := d.writers[who := w.(phase := Written(w.phase.checkedAt))])
    case MoveHead(who) =>
      var w := d.writers[who];
      d.(head := Some(w.plan.id), writers := d.writers[who := w.(phase := Done(w.phase.checkedAt))],
         moves := d.moves + [Move(who, w.plan, w.phase.checkedAt)])
  }

  predicate Runs(d: Directory, run: seq<Act>)
    decreases |run|, 0
  {
    run == [] || (Runs(d, run[..|run| - 1]) && Enabled(After(d, run[..|run| - 1]), run[|run| - 1]))
  }

  function After(d: Directory, run: seq<Act>): Directory
    requires Runs(d, run)
    decreases |run|, 1
  {
    if run == [] then d else Step(After(d, run[..|run| - 1]), run[|run| - 1])
  }

  // -------------------------------------------------------------- the invariant

  /** A directory nobody is writing to yet. */
  predicate Initial(d: Directory) {
    d.writers == map[] && d.writes == [] && d.moves == [] && Consistent(Stores(d.versions, d.head))
  }

  /** Every writer brings an id of its own, new to the store, and plans on from what it expects. */
  predicate FreshIds(versions: Versions, writers: map<nat, Writer>) {
    && (forall k :: k in writers ==>
          && writers[k].plan.id != "" && writers[k].plan.id !in versions
          && writers[k].plan.parentId == writers[k].expected)
    && (forall j, k :: j in writers && k in writers && j != k ==> writers[j].plan.id != writers[k].plan.id)
  }

  /** HEAD after the first `n` moves. */
  function HeadAfter(head: Option<PlanId>, moves: seq<Move>, n: nat): Option<PlanId>
    requires n <= |moves|
  {
    if n == 0 then head else Some(moves[n - 1].plan.id)
  }

  predicate Filed(versions: Versions, plan: Plan) { plan.id in versions && versions[plan.id] == plan }

  /** The version last written under this id, if any was. */
  function LastUnder(writes: seq<Plan>, id: PlanId): (r: Option<Plan>)
    ensures r.Some? ==> r.value in writes && r.value.id == id
    ensures r.None? <==> forall x :: x in writes ==> x.id != id
  {
    if writes == [] then None
    else if writes[|writes| - 1].id == id then Some(writes[|writes| - 1])
    else LastUnder(writes[..|writes| - 1], id)
  }

  /** What is on file: under an id that was written, the last version written under it; else what was there before. */
  ghost predicate HoldsTheLast(start: Versions, versions: Versions, writes: seq<Plan>) {
    forall id :: HoldsTheLastUnder(start, versions, writes, id)
  }

  predicate HoldsTheLastUnder(start: Versions, versions: Versions, writes: seq<Plan>, id: PlanId) {
    Get(versions, id) == if LastUnder(writes, id).Some? then LastUnder(writes, id) else Get(start, id)
  }

  /** A writer past its check expected the HEAD of that moment, and once written its version was written. */
  predicate WriterOk(start: Directory, d: Directory, w: Writer) {
    && (!w.phase.TurnedAway? ==>
          w.phase.checkedAt <= |d.moves| && w.expected == HeadAfter(start.head, d.moves, w.phase.checkedAt))
    && (w.phase.Written? || w.phase.Done? ==> w.plan in d.writes)
  }

  predicate MoveOk(writers: map<nat, Writer>, m: Move, i: nat) {
    m.who in writers && writers[m.who].plan == m.plan && writers[m.who].phase == Done(m.checkedAt) && m.checkedAt <= i
  }

  predicate WrittenBySome(writers: map<nat, Writer>, plan: Plan) {
    exists k :: k in writers && writers[k].plan == plan
  }

  ghost predicate DirectoryOk(start: Directory, d: Directory) {
    && d.head == HeadAfter(start.head, d.moves, |d.moves|)
    && HoldsTheLast(start.versions, d.versions, d.writes)
    && (forall k :: k in d.writers ==> WriterOk(start, d, d.writers[k]))
    && (forall x :: x in d.writes ==> WrittenBySome(d.writers, x))
    && (forall i :: 0 <= i < |d.moves| ==> MoveOk(d.writers, d.moves[i], i))
    && (forall i, j :: 0 <= i < j < |d.moves| ==> d.moves[i].who != d.moves[j].who)
  }

  /** HEAD always names a version on file under its own id, so a check sees HEAD as it is. */
  lemma HeadIsOnFile(start: Directory, d: Directory)
    requires Initial(start) && DirectoryOk(start, d)
    ensures Consistent(Stores(d.versions, d.head)) && FileHead(Stores(d.versions, d.head)) == d.head
  {
    if d.moves != [] {
      var n := |d.moves| - 1;
      assert MoveOk(d.writers, d.moves[n], n);
      assert WriterOk(start, d, d.writers[d.moves[n].who]);
      assert HoldsTheLastUnder(start.versions, d.versions, d.writes, d.moves[n].plan.id);
    } else if d.head.Some? {
      assert HoldsTheLastUnder(start.versions, d.versions, d.writes, d.head.value);
    }
  }

  lemma CheckKeeps(start: Directory, d: Directory, a: Act)
    requires Initial(start) && DirectoryOk(start, d) && a.Check? && Enabled(d, a)
    ensures DirectoryOk(start, Step(d, a))
  {
    HeadIsOnFile(start, d);
    var e := Step(d, a);
    forall k | k in e.writers ensures WriterOk(start, e, e.writers[k]) {
      assert k != a.who ==> WriterOk(start, d, d.writers[k]);
    }
    forall i | 0 <= i < |e.moves| ensures MoveOk(e.writers, e.moves[i], i) {
      assert MoveOk(d.writers, d.moves[i], i);
    }
    StepKeepsWritten(d, a);
  }

  /** Every version written so far is some writer's. */
  lemma StepKeepsWritten(d: Directory, a: Act)
    requires Enabled(d, a) && forall x :: x in d.writes ==> WrittenBySome(d.writers, x)
    ensures var e := Step(d, a); forall x :: x in e.writes ==> WrittenBySome(e.writers, x)
  {
    var e := Step(d, a);
    forall x | x in e.writes ensures WrittenBySome(e.writers, x) {
      if x in d.writes {
        assert WrittenBySome(d.writers, x);
        var k :| k in d.writers && d.writers[k].plan == x;
        assert k in e.writers && e.writers[k].plan == x;
      } else {
        assert a.who in e.writers && e.writers[a.who].plan == x;
      }
    }
  }

  lemma WriteKeeps(start: Directory, d: Directory, a: Act)
    requires DirectoryOk(start, d) && a.WriteVersion? && Enabled(d, a)
    ensures DirectoryOk(start, Step(d, a))
  {
    var e := Step(d, a);
    OneMoreWritten(start.versions, d.versions, d.writes, d.writers[a.who].plan);
    forall k | k in e.writers ensures WriterOk(start, e, e.writers[k]) {
      WriteKeepsWriter(start, d, a, k);
    }
    forall i | 0 <= i < |e.moves| ensures MoveOk(e.writers, e.moves[i], i) {
      assert MoveOk(d.writers, d.moves[i], i);
    }
    StepKeepsWritten(d, a);
  }

  lemma OneMoreWritten(start: Versions, versions: Versions, writes: seq<Plan>, plan: Plan)
    requires HoldsTheLast(start, versions, writes)
    ensures HoldsTheLast(start, versions[plan.id := plan], writes + [plan])
  {
    var later, all := versions[plan.id := plan], writes + [plan];
    forall id ensures HoldsTheLastUnder(start, later, all, id) {
      assert (writes + [plan])[..|writes|] == writes;
      assert HoldsTheLastUnder(start, versions, writes, id);
    }
  }

  lemma WriteKeepsWriter(start: Directory, d: Directory, a: Act, k: nat)
    requires a.WriteVersion? && Enabled(d, a) && k in d.writers && WriterOk(start, d, d.writers[k])
    ensures WriterOk(start, Step(d, a), Step(d, a).writers[k])
  {
  }

  lemma MoveKeepsWriters(start: Directory, d: Directory, a: Act)
    requires DirectoryOk(start, d) && a.MoveHead? && Enabled(d, a)
    ensures var e := Step(d, a); forall k :: k in e.writers ==> WriterOk(start, e, e.writers[k])
  {
    var e := Step(d, a);
    forall k | k in e.writers ensures WriterOk(start, e, e.writers[k]) {
      WriterStaysOk(start, d, e, d.writers[k]);
    }
  }

  lemma WriterStaysOk(start: Directory, d: Directory, e: Directory, w: Writer)
    requires WriterOk(start, d, w) && d.moves <= e.moves && e.writes == d.writes
    ensures WriterOk(start, e, w)
    ensures w.phase.Written? ==> WriterOk(start, e, w.(phase := Done(w.phase.checkedAt)))
  {
  }

  lemma MoveKeepsMoves(start: Directory, d: Directory, a: Act)
    requires DirectoryOk(start, d) && a.MoveHead? && Enabled(d, a)
    ensures var e := Step(d, a);
            && (forall i :: 0 <= i < |e.moves| ==> MoveOk(e.writers, e.moves[i], i))
            && (forall i :: 0 <= i < |d.moves| ==> d.moves[i].who != a.who)
  {
    var e := Step(d, a);
    forall i | 0 <= i < |d.moves| ensures d.moves[i].who != a.who && MoveOk(e.writers, d.moves[i], i) {
      assert MoveOk(d.writers, d.moves[i], i);
    }
    assert WriterOk(start, d, d.writers[a.who]);
  }

  lemma MoveKeeps(start: Directory, d: Directory, a: Act)
    requires DirectoryOk(start, d) && a.MoveHead? && Enabled(d, a)
    ensures DirectoryOk(start, Step(d, a))
  {
    MoveKeepsWriters(start, d, a);
    MoveKeepsMoves(start, d, a);
    StepKeepsWritten(d, a);
  }

  /** In every interleaving, whatever ids the writers bring: HEAD is what the last move made it and names a version on
      file under its own id, every writer past its check expected the HEAD of that moment, and under each id lies the
      last version written under it. */
  lemma {:induction false} EveryRunIsOk(start: Directory, run: seq<Act>)
    requires Initial(start) && Runs(start, run)
    ensures DirectoryOk(start, After(start, run))
    ensures var d := After(start, run);
            Consistent(Stores(d.versions, d.head)) && FileHead(Stores(d.versions, d.head)) == d.head
    decreases |run|
  {
    if run != [] {
      var d, a := After(start, run[..|run| - 1]), run[|run| - 1];
      EveryRunIsOk(start, run[..|run| - 1]);
      match a
      case Check(_, _, _) => CheckKeeps(start, d, a);
      case WriteVersion(_) => WriteKeeps(start, d, a);
      case MoveHead(_) => MoveKeeps(start, d, a);
    }
    HeadIsOnFile(start, After(start, run));
  }

  /** With ids of their own, no writer overwrites anything: what was written or was there before stays on file. */
  lemma NothingIsOverwritten(start: Directory, d: Directory)
    requires DirectoryOk(start, d) && FreshIds(start.versions, d.writers)
    ensures forall x :: x in d.writes ==> Filed(d.versions, x)
    ensures forall k :: k in start.versions ==> k in d.versions && d.versions[k] == start.versions[k]
  {
    forall x | x in d.writes ensures Filed(d.versions, x) {
      var last := LastUnder(d.writes, x.id).value;
      assert WrittenBySome(d.writers, x) && WrittenBySome(d.writers, last);
      assert HoldsTheLastUnder(start.versions, d.versions, d.writes, x.id);
    }
    forall k | k in start.versions ensures k in d.versions && d.versions[k] == start.versions[k] {
      assert HoldsTheLastUnder(start.versions, d.versions, d.writes, k);
      forall x | x in d.writes ensures x.id != k {
        assert WrittenBySome(d.writers, x);
      }
    }
  }

  // ------------------------------------------------------- what HEAD descends from

  /** Nobody looks at HEAD after having moved it. */
  predicate LookedBefore(moves: seq<Move>) { forall i :: 0 <= i < |moves| ==> moves[i].checkedAt <= i }

  /** The history HEAD has after `n` moves: each move carries on from the HEAD its writer compared, not
      from the one it replaced. */
  function HistoryOf(line: seq<Plan>, moves: seq<Move>, n: nat): seq<Plan>
    requires n <= |moves| && LookedBefore(moves)
    decreases n
  {
    if n == 0 then line else HistoryOf(line, moves, moves[n - 1].checkedAt) + [moves[n - 1].plan]
  }

  /** The plan of a move: on file under an id of its own, a child of the HEAD its writer compared. */
  predicate Recorded(start: Directory, d: Directory, i: nat)
    requires i < |d.moves|
  {
    var m := d.moves[i];
    && m.plan.id != "" && m.plan.id !in start.versions && Filed(d.versions, m.plan)
    && m.checkedAt <= i && m.plan.parentId == HeadAfter(start.head, d.moves, m.checkedAt)
  }

  predicate AllRecorded(start: Directory, d: Directory) {
    && (forall i :: 0 <= i < |d.moves| ==> Recorded(start, d, i))
    && (forall i, j :: 0 <= i < j < |d.moves| ==> d.moves[i].plan.id != d.moves[j].plan.id)
  }

  lemma MovesAreRecorded(start: Directory, d: Directory)
    requires DirectoryOk(start, d) && FreshIds(start.versions, d.writers)
    ensures AllRecorded(start, d) && LookedBefore(d.moves)
  {
    NothingIsOverwritten(start, d);
    forall i | 0 <= i < |d.moves| ensures Recorded(start, d, i) {
      assert MoveOk(d.writers, d.moves[i], i);
      assert WriterOk(start, d, d.writers[d.moves[i].who]);
    }
    forall i, j | 0 <= i < j < |d.moves| ensures d.moves[i].plan.id != d.moves[j].plan.id {
      assert MoveOk(d.writers, d.moves[i], i) && MoveOk(d.writers, d.moves[j], j);
    }
    forall i | 0 <= i < |d.moves| ensures d.moves[i].checkedAt <= i {
      assert Recorded(start, d, i);
    }
  }

  /** The history holds only the line and the first `n` moves. */
  lemma {:induction false} HistoryIsFromBefore(line: seq<Plan>, moves: seq<Move>, n: nat, p: Plan)
    requires n <= |moves| && LookedBefore(moves) && p in HistoryOf(line, moves, n)
    ensures p in line || exists i :: 0 <= i < n && moves[i].plan == p
    decreases n
  {
    if n > 0 {
      var c := moves[n - 1].checkedAt;
      if p != moves[n - 1].plan {
        assert p in HistoryOf(line, moves, c);
        HistoryIsFromBefore(line, moves, c, p);
      }
    }
  }

  lemma {:induction false} HistoryDescends(start: Directory, d: Directory, line: seq<Plan>, n: nat)
    requires n <= |d.moves| && AllRecorded(start, d) && LookedBefore(d.moves)
    requires Descent(start.versions, line) && start.head == EndOf(line) && Descent(d.versions, line)
    ensures Descent(d.versions, HistoryOf(line, d.moves, n))
    ensures EndOf(HistoryOf(line, d.moves, n)) == HeadAfter(start.head, d.moves, n)
    decreases n
  {
    if n > 0 {
      var m := d.moves[n - 1];
      assert Recorded(start, d, n - 1);
      var earlier := HistoryOf(line, d.moves, m.checkedAt);
      HistoryDescends(start, d, line, m.checkedAt);
      forall i | 0 <= i < |earlier| ensures earlier[i].id != m.plan.id {
        HistoryIsFromBefore(line, d.moves, m.checkedAt, earlier[i]);
      }
      DescentGoesOn(d.versions, earlier, m.plan);
    }
  }

  lemma DescentGoesOn(versions: Versions, line: seq<Plan>, next: Plan)
    requires Descent(versions, line) && Filed(versions, next) && next.id != "" && next.parentId == EndOf(line)
    requires forall i :: 0 <= i < |line| ==> line[i].id != next.id
    ensures Descent(versions, line + [next])
  {
  }

  lemma DescentIsKept(earlier: Versions, versions: Versions, line: seq<Plan>)
    requires Descent(earlier, line)
    requires forall k :: k in earlier ==> k in versions && versions[k] == earlier[k]
    ensures Descent(versions, line)
  {
  }

  /** In every interleaving the parent chain from HEAD is `HistoryOf` the moves, newest first. */
  lemma AncestryIsWhatWasChecked(start: Directory, run: seq<Act>, line: seq<Plan>)
    requires Initial(start) && Runs(start, run) && FreshIds(start.versions, After(start, run).writers)
    requires Descent(start.versions, line) && start.head == EndOf(line)
    ensures var d := After(start, run);
            LookedBefore(d.moves) && Ancestry(d.versions, d.head, None) == Reverse(HistoryOf(line, d.moves, |d.moves|))
  {
    var d := After(start, run);
    EveryRunIsOk(start, run);
    NothingIsOverwritten(start, d);
    MovesAreRecorded(start, d);
    DescentIsKept(start.versions, d.versions, line);
    HistoryDescends(start, d, line, |d.moves|);
    DescentIsTheAncestry(d.versions, d.head, HistoryOf(line, d.moves, |d.moves|));
  }

  // -------------------------------------------------------------- when none is lost

  /** Every writer that moved HEAD had compared the very HEAD it replaced. */
  predicate NoneCutIn(moves: seq<Move>) { forall i :: 0 <= i < |moves| ==> moves[i].checkedAt == i }

  predicate AllIn(moves: seq<Move>, n: nat, history: seq<Plan>)
    requires n <= |moves|
  {
    forall i :: 0 <= i < n ==> moves[i].plan in history
  }

  lemma {:induction false} NothingLostIfNoneCutIn(line: seq<Plan>, moves: seq<Move>, n: nat)
    requires n <= |moves| && NoneCutIn(moves)
    ensures AllIn(moves, n, HistoryOf(line, moves, n))
    decreases n
  {
    if n > 0 {
      NothingLostIfNoneCutIn(line, moves, n - 1);
    }
  }

  /** A move made since the last writer looked is not in its history. */
  lemma {:induction false} NoneCutInIfNothingLost(line: seq<Plan>, moves: seq<Move>, n: nat)
    requires n <= |moves| && LookedBefore(moves)
    requires forall i, j :: 0 <= i < j < |moves| ==> moves[i].plan != moves[j].plan
    requires forall i :: 0 <= i < |moves| ==> moves[i].plan !in line
    requires AllIn(moves, n, HistoryOf(line, moves, n))
    ensures forall i :: 0 <= i < n ==> moves[i].checkedAt == i
    decreases n
  {
    if n > 0 {
      var c := moves[n - 1].checkedAt;
      var earlier := HistoryOf(line, moves, c);
      forall i | 0 <= i < n - 1 ensures moves[i].plan in earlier && i < c {
        assert moves[i].plan in earlier + [moves[n - 1].plan];
        HistoryIsFromBefore(line, moves, c, moves[i].plan);
      }
      NoneCutInIfNothingLost(line, moves, n - 1);
    }
  }

  lemma {:induction false} ReverseHolds<T>(s: seq<T>, x: T)
    ensures x in Reverse(s) <==> x in s
  {
    if s != [] {
      ReverseHolds(s[..|s| - 1], x);
      assert s == s[..|s| - 1] + [s[|s| - 1]];
    }
  }

  lemma NewPlansAreNotOnTheLine(start: Directory, d: Directory, line: seq<Plan>)
    requires AllRecorded(start, d) && Descent(start.versions, line)
    ensures forall i :: 0 <= i < |d.moves| ==> d.moves[i].plan !in line
    ensures forall i, j :: 0 <= i < j < |d.moves| ==> d.moves[i].plan != d.moves[j].plan
  {
    forall i | 0 <= i < |d.moves| ensures d.moves[i].plan !in line {
      assert Recorded(start, d, i);
    }
  }

  /** Which interleavings lose a commit: every commit that succeeded is still in the parent chain from HEAD
      exactly when no HEAD was replaced between a successful writer's check and its own move. */
  lemma NothingIsLostIff(start: Directory, run: seq<Act>, line: seq<Plan>)
    requires Initial(start) && Runs(start, run) && FreshIds(start.versions, After(start, run).writers)
    requires Descent(start.versions, line) && start.head == EndOf(line)
    ensures var d := After(start, run);
            AllIn(d.moves, |d.moves|, Ancestry(d.versions, d.head, None)) <==> NoneCutIn(d.moves)
  {
    var d := After(start, run);
    var n := |d.moves|;
    AncestryIsWhatWasChecked(start, run, line);
    EveryRunIsOk(start, run);
    MovesAreRecorded(start, d);
    NewPlansAreNotOnTheLine(start, d, line);
    var history := HistoryOf(line, d.moves, n);
    forall i | 0 <= i < n ensures d.moves[i].plan in Reverse(history) <==> d.moves[i].plan in history {
      ReverseHolds(history, d.moves[i].plan);
    }
    if NoneCutIn(d.moves) {
      NothingLostIfNoneCutIn(line, d.moves, n);
    }
    if AllIn(d.moves, n, history) {
      NoneCutInIfNothingLost(line, d.moves, n);
    }
  }

  // ---------------------------------------------------------- two writers at once

  /** Both writers compare HEAD before either writes, and each then writes its version and replaces HEAD. */
  function Interleaved(first: Plan, second: Plan, head: Option<PlanId>): seq<Act> {
    [Check(0, first, head), Check(1, second, head), WriteVersion(0), MoveHead(0), WriteVersion(1), MoveHead(1)]
  }

  lemma ThenOne(d: Directory, run: seq<Act>, a: Act)
    requires Runs(d, run) && Enabled(After(d, run), a)
    ensures Runs(d, run + [a]) && After(d, run + [a]) == Step(After(d, run), a)
  {
    assert (run + [a])[..|run|] == run;
  }

  function BothChecked(start: Directory, first: Plan, second: Plan): Directory {
    start.(writers := map[0 := Writer(first, start.head, Checked(0)), 1 := Writer(second, start.head, Checked(0))])
  }

  lemma BothCheck(start: Directory, first: Plan, second: Plan)
    requires Initial(start)
    ensures var run := [Check(0, first, start.head), Check(1, second, start.head)];
            Runs(start, run) && After(start, run) == BothChecked(start, first, second)
  {
    ThenTwo(start, [], Check(0, first, start.head), Check(1, second, start.head));
    assert [] + [Check(0, first, start.head), Check(1, second, start.head)]
        == [Check(0, first, start.head), Check(1, second, start.head)];
    assert Step(Step(start, Check(0, first, start.head)), Check(1, second, start.head)).writers
        == BothChecked(start, first, second).writers;
  }

  /** The first writer done, the second still to write. */
  function FirstMoved(start: Directory, first: Plan, second: Plan): Directory {
    Directory(start.versions[first.id := first], Some(first.id),
              map[0 := Writer(first, start.head, Done(0)), 1 := Writer(second, start.head, Checked(0))],
              [first], [Move(0, first, 0)])
  }

  function BothMoved(start: Directory, first: Plan, second: Plan): Directory {
    Directory(start.versions[first.id := first][second.id := second], Some(second.id),
              map[0 := Writer(first, start.head, Done(0)), 1 := Writer(second, start.head, Done(0))],
              [first, second], [Move(0, first, 0), Move(1, second, 0)])
  }

  lemma FirstMoves(start: Directory, first: Plan, second: Plan)
    requires start.moves == [] && start.writes == []
    ensures var d := BothChecked(start, first, second);
            && Enabled(d, WriteVersion(0)) && Enabled(Step(d, WriteVersion(0)), MoveHead(0))
            && Step(Step(d, WriteVersion(0)), MoveHead(0)) == FirstMoved(start, first, second)
  {
    var d := BothChecked(start, first, second);
    assert Step(Step(d, WriteVersion(0)), MoveHead(0)).writers == FirstMoved(start, first, second).writers;
  }

  lemma SecondMoves(start: Directory, first: Plan, second: Plan)
    ensures var d := FirstMoved(start, first, second);
            && Enabled(d, WriteVersion(1)) && Enabled(Step(d, WriteVersion(1)), MoveHead(1))
            && Step(Step(d, WriteVersion(1)), MoveHead(1)) == BothMoved(start, first, second)
  {
    var d := FirstMoved(start, first, second);
    assert Step(Step(d, WriteVersion(1)), MoveHead(1)).writers == BothMoved(start, first, second).writers;
  }

  lemma BothMove(start: Directory, first: Plan, second: Plan)
    requires Initial(start)
    ensures var run := Interleaved(first, second, start.head);
            Runs(start, run) && After(start, run) == BothMoved(start, first, second)
  {
    var checks := [Check(0, first, start.head), Check(1, second, start.head)];
    var firsts, seconds := [WriteVersion(0), MoveHead(0)], [WriteVersion(1), MoveHead(1)];
    BothCheck(start, first, second);
    FirstMoves(start, first, second);
    ThenTwo(start, checks, WriteVersion(0), MoveHead(0));
    SecondMoves(start, first, second);
    ThenTwo(start, checks + firsts, WriteVersion(1), MoveHead(1));
    assert checks + firsts + seconds == Interleaved(first, second, start.head);
  }

  lemma ThenTwo(d: Directory, run: seq<Act>, a: Act, b: Act)
    requires Runs(d, run) && Enabled(After(d, run), a) && Enabled(Step(After(d, run), a), b)
    ensures Runs(d, run + [a, b]) && After(d, run + [a, b]) == Step(Step(After(d, run), a), b)
  {
    ThenOne(d, run, a);
    ThenOne(d, run + [a], b);
    assert run + [a] + [b] == run + [a, b];
  }

  /** A run, from any store, in which both commits succeed and the first one's version drops out of the history. */
  lemma FilesCanLoseACommit(start: Directory, line: seq<Plan>, first: Plan, second: Plan)
    requires Initial(start) && Descent(start.versions, line) && start.head == EndOf(line)
    requires first.parentId == start.head && second.parentId == start.head && first.id != second.id
    requires first.id != "" && second.id != "" && first.id !in start.versions && second.id !in start.versions
    ensures var run := Interleaved(first, second, start.head);
            Runs(start, run) && var d := After(start, run);
            && FreshIds(start.versions, d.writers) && !NoneCutIn(d.moves)
            && d.moves == [Move(0, first, 0), Move(1, second, 0)]
            && Ancestry(d.versions, d.head, None) == Reverse(line + [second])
            && first !in Reverse(line + [second])
  {
    var run := Interleaved(first, second, start.head);
    BothMove(start, first, second);
    SecondLookedFirst(line, first, second);
    ReverseHolds(line + [second], first);
    LineIsOlder(start.versions, line, first);
    BothAreFresh(start, first, second);
    AncestryIsWhatWasChecked(start, run, line);
  }

  lemma BothAreFresh(start: Directory, first: Plan, second: Plan)
    requires first.parentId == start.head && second.parentId == start.head && first.id != second.id
    requires first.id != "" && second.id != "" && first.id !in start.versions && second.id !in start.versions
    ensures FreshIds(start.versions, BothMoved(start, first, second).writers)
    ensures !NoneCutIn(BothMoved(start, first, second).moves)
  {
    assert BothMoved(start, first, second).moves[1].checkedAt == 0;
  }

  lemma LineIsOlder(versions: Versions, line: seq<Plan>, plan: Plan)
    requires Descent(versions, line) && plan.id !in versions
    ensures plan !in line
  {
  }

  lemma SecondLookedFirst(line: seq<Plan>, first: Plan, second: Plan)
    ensures HistoryOf(line, [Move(0, first, 0), Move(1, second, 0)], 2) == line + [second]
  {
    var moves := [Move(0, first, 0), Move(1, second, 0)];
    assert HistoryOf(line, moves, 2) == HistoryOf(line, moves, 0) + [second];
  }

  // ------------------------------------------------------------------ an id used again

  /** One writer alone: compare HEAD, write the version, replace HEAD. */
  function Alone(plan: Plan, head: Option<PlanId>): seq<Act> {
    [Check(0, plan, head), WriteVersion(0), MoveHead(0)]
  }

  function Overwritten(start: Directory, plan: Plan): Directory {
    Directory(start.versions[plan.id := plan], Some(plan.id), map[0 := Writer(plan, start.head, Done(0))],
              [plan], [Move(0, plan, 0)])
  }

  lemma AloneOverwrites(start: Directory, plan: Plan)
    requires Initial(start)
    ensures var run := Alone(plan, start.head); Runs(start, run) && After(start, run) == Overwritten(start, plan)
  {
    var check, others := Check(0, plan, start.head), [WriteVersion(0), MoveHead(0)];
    ThenOne(start, [], check);
    assert [] + [check] == [check];
    ThenTwo(start, [check], WriteVersion(0), MoveHead(0));
    assert [check] + others == Alone(plan, start.head);
    assert After(start, Alone(plan, start.head)).writers == Overwritten(start, plan).writers;
  }

  /** Walking back over a line whose version `i` was overwritten by one already seen stops there. */
  lemma {:induction false} WalkStopsAtTheOverwritten(
    versions: Versions, line: seq<Plan>, i: nat, n: nat, plan: Plan, seen: set<PlanId>)
    requires i < n <= |line| && Filed(versions, plan) && plan.id == line[i].id && plan.id in seen
    requires line[n - 1].id in versions
    requires forall j :: i < j < n ==> line[j].id != "" && Filed(versions, line[j]) && line[j].id !in seen
    requires forall j, k :: i <= j < k < n ==> line[j].id != line[k].id
    requires forall j :: i < j < n ==> line[j].parentId == Some(line[j - 1].id)
    requires line[i].id != ""
    ensures Chain(versions, Some(versions[line[n - 1].id]), seen) == Reverse(line[i + 1..n])
    decreases n
  {
    if n == i + 1 {
      assert line[i + 1..n] == [];
    } else {
      var p := line[n - 1];
      assert Filed(versions, p) && p in versions.Values && (i < n - 2 ==> Filed(versions, line[n - 2]));
      ChainStep(versions, p, seen);
      WalkStopsAtTheOverwritten(versions, line, i, n - 1, plan, seen + {p.id});
      assert line[i + 1..n] == line[i + 1..n - 1] + [p];
      assert Reverse(line[i + 1..n]) == [p] + Reverse(line[i + 1..n - 1]);
    }
  }

  /** An id that is on file already: one writer, all alone, carries on from HEAD as it should under the id of version
      `i` of the history, and that version and all before it drop out of the history. */
  lemma ReusedIdsDropHistory(start: Directory, line: seq<Plan>, i: nat, plan: Plan)
    requires Initial(start) && Descent(start.versions, line) && start.head == EndOf(line)
    requires i < |line| && plan.id == line[i].id && plan.parentId == start.head
    ensures var run := Alone(plan, start.head);
            Runs(start, run) && var d := After(start, run);
            && d.moves == [Move(0, plan, 0)] && NoneCutIn(d.moves)
            && Ancestry(d.versions, d.head, None) == [plan] + Reverse(line[i + 1..])
  {
    AloneOverwrites(start, plan);
    HistoryOverwritten(start.versions[plan.id := plan], line, i, plan);
  }

  lemma HistoryOverwritten(versions: Versions, line: seq<Plan>, i: nat, plan: Plan)
    requires i < |line| && Filed(versions, plan) && plan.id == line[i].id && plan.parentId == EndOf(line)
    requires forall j :: 0 <= j < |line| ==> line[j].id != "" && (j != i ==> Filed(versions, line[j]))
    requires forall j, k :: 0 <= j < k < |line| ==> line[j].id != line[k].id
    requires forall j :: 0 < j < |line| ==> line[j].parentId == Some(line[j - 1].id)
    ensures Ancestry(versions, Some(plan.id), None) == [plan] + Reverse(line[i + 1..])
  {
    var last := line[|line| - 1].id;
    assert Filed(versions, line[|line| - 1]) || last == plan.id;
    assert ParentOf(versions, plan) == Some(versions[last]);
    assert versions[plan.id] == plan && {} + {plan.id} == {plan.id};
    ChainStep(versions, plan, {});
    WalkStopsAtTheOverwritten(versions, line, i, |line|, plan, {plan.id});
    assert line[i + 1..|line|] == line[i + 1..];
  }
}
