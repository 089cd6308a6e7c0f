/** One object under conditional writes: `If-Match` and `If-None-Match: *`
    (sections 13.1.1 and 13.1.2 of RFC 9110). */
module ConditionalObject {
  import opened Collections

  type Tag = nat

  /** What the object holds, the tag it carries now, and what each tag ever handed out stood for. */
  datatype Object<T> = Object(content: Option<T>, tag: Tag, issued: map<Tag, T>)

  ghost predicate Valid<T>(o: Object<T>) {
    o.content.Some? ==> o.tag in o.issued && o.issued[o.tag] == o.content.value
  }

  /** The tag a read returns: none when there is no object. */
  function TagOf<T>(o: Object<T>): Option<Tag> { if o.content.Some? then Some(o.tag) else None }

  /** Whether a write is let through: on the tag given, or on there being no object. */
  predicate Admits<T>(o: Object<T>, condition: Option<Tag>) {
    if condition.Some? then o.content.Some? && o.tag == condition.value else o.content.None?
  }

  /** Tags are strong validators (section 8.8.1 of RFC 9110): one tag never stands for two contents.
      A tag may return with the content it stood for, as a digest of the body does. */
  predicate MayTag<T(==)>(o: Object<T>, tag: Tag, value: T) { tag in o.issued ==> o.issued[tag] == value }

  function Put<T>(o: Object<T>, value: T, tag: Tag): Object<T> {
    Object(Some(value), tag, o.issued[tag := value])
  }

  /** A read once returned this content with this tag. */
  ghost predicate Observed<T>(o: Object<T>, content: Option<T>, tag: Option<Tag>) {
    if tag.Some? then tag.value in o.issued && content == Some(o.issued[tag.value]) else content.None?
  }

  lemma PutKeeps<T>(o: Object<T>, value: T, tag: Tag)
    requires Valid(o) && MayTag(o, tag, value)
    ensures Valid(Put(o, value, tag))
    ensures forall c, t :: Observed(o, c, t) ==> Observed(Put(o, value, tag), c, t)
  {
  }

  /** A write let through under an earlier read's tag replaces exactly what that read returned. */
  lemma AdmittedReplacesWhatWasRead<T>(o: Object<T>, content: Option<T>, tag: Option<Tag>)
    requires Valid(o) && Observed(o, content, tag) && Admits(o, tag)
    ensures o.content == content
  {
  }
}

/** Any number of writers committing to one bucket at once, each commit broken into its separate
    requests and interleaved in any order (persistence/s3.py). */
module CommitProtocol {
  import opened Collections
  import opened ConditionalObject
  import opened Domain
  import opened PlanVersions

  /** How far a commit has got. `seen` is the tag HEAD was read at. */
  datatype Phase =
    | Begun
    | Matched(seen: Option<Tag>)
    | VersionRefused(seen: Option<Tag>)
    | VersionStored(seen: Option<Tag>)
    | HeadRefused
    | Committed
    | Conflicted(actual: Option<PlanId>)

  datatype Writer = Writer(plan: Plan, expected: Option<PlanId>, phase: Phase)

  /** A successful move of HEAD: by whom, what it replaced, and the version it points at now. */
  datatype Move = Move(who: nat, replaced: Option<PlanId>, plan: Plan)

  datatype Bucket = Bucket(
    versions: Versions, head: Object<PlanId>, writers: map<nat, Writer>, moves: seq<Move>)

  /** One request reaching the bucket. A conditional write may also be refused for no visible reason:
      the service answers 409 to a write that raced with another. */
  datatype Request =
    | Begin(who: nat, plan: Plan, expected: Option<PlanId>)
    | ReadHead(who: nat)
    | PutVersion(who: nat, refused: bool)
    | ReadVersion(who: nat)
    | PutHead(who: nat, tag: Tag, refused: bool)
    | ReadActual(who: nat)

  predicate Enabled(s: Bucket, r: Request) {
    if r.Begin? then r.who !in s.writers
    else
      && r.who in s.writers
      && var phase := s.writers[r.who].phase;
        match r
        case ReadHead(_) => phase.Begun?
        case PutVersion(_, _) => phase.Matched?
        case ReadVersion(_) => phase.VersionRefused?
        case PutHead(_, tag, _) => phase.VersionStored? && MayTag(s.head, tag, s.writers[r.who].plan.id)
        case _ => phase.HeadRefused?
  }

  /** The version is on file with the content this plan has. */
  predicate Held(versions: Versions, plan: Plan) {
    plan.id in versions && Content(versions[plan.id]) == Content(plan)
  }

  function Enter(s: Bucket, who: nat, phase: Phase): Bucket
    requires who in s.writers
  {
    s.(writers := s.writers[who := s.writers[who].(phase := phase)])
  }

  function Step(s: Bucket, r: Request): Bucket
    requires Enabled(s, r)
  {
    match r
    case Begin(who, plan, expected) => s.(writers := s.writers[who := Writer(plan, expected, Begun)])
    case ReadHead(who) =>
      Enter(s, who, if s.head.content != s.writers[who].expected then Conflicted(s.head.content)
                    else Matched(TagOf(s.head)))
    case PutVersion(who, refused) =>
      var plan, seen := s.writers[who].plan, s.writers[who].phase.seen;
      if !refused && plan.id !in s.versions then
        Enter(s, who, VersionStored(seen)).(versions := s.versions[plan.id := plan])
      else Enter(s, who, VersionRefused(seen))
    case ReadVersion(who) =>
      var w := s.writers[who];
      Enter(s, who, if Held(s.versions, w.plan) then VersionStored(w.phase.seen) else Conflicted(w.expected))
    case PutHead(who, tag, refused) =>
      var w := s.writers[who];
      if !refused && Admits(s.head, w.phase.seen) then
        Enter(s, who, Committed).(head := Put(s.head, w.plan.id, tag),
                                  moves := s.moves + [Move(who, s.head.content, w.plan)])
      else Enter(s, who, HeadRefused)
    case ReadActual(who) => Enter(s, who, Conflicted(s.head.content))
  }

  /** The requests arrive in this order, each one allowed where it comes. */
  predicate Runs(s: Bucket, run: seq<Request>)
    decreases |run|, 0
  {
    run == [] || (Runs(s, run[..|run| - 1]) && Enabled(After(s, run[..|run| - 1]), run[|run| - 1]))
  }

  function After(s: Bucket, run: seq<Request>): Bucket
    requires Runs(s, run)
    decreases |run|, 1
  {
    if run == [] then s else Step(After(s, run[..|run| - 1]), run[|run| - 1])
  }

  // -------------------------------------------------------------- the invariant

  /** A bucket nobody is writing to yet. */
  ghost predicate Initial(s: Bucket) {
    && s.writers == map[] && s.moves == []
    && Valid(s.head)
    && FiledUnderOwnIds(s.versions)
    && (s.head.content.Some? ==> s.head.content.value in s.versions)
  }

  predicate FiledUnderOwnIds(versions: Versions) { forall k :: k in versions ==> versions[k].id == k }

  /** HEAD names a stored version. */
  ghost predicate HeadOk(s: Bucket) {
    && Valid(s.head)
    && FiledUnderOwnIds(s.versions)
    && (s.head.content.Some? ==> s.head.content.value in s.versions)
  }

  ghost predicate WriterOk(s: Bucket, w: Writer) {
    match w.phase
    case Matched(seen) => Observed(s.head, w.expected, seen)
    case VersionRefused(seen) => Observed(s.head, w.expected, seen)
    case VersionStored(seen) => Observed(s.head, w.expected, seen) && Held(s.versions, w.plan)
    case Committed => Held(s.versions, w.plan)
    case _ => true
  }

  ghost predicate WritersOk(s: Bucket) { forall k :: k in s.writers ==> WriterOk(s, s.writers[k]) }

  predicate MovedBy(moves: seq<Move>, who: nat) { exists i :: 0 <= i < |moves| && moves[i].who == who }

  /** A move was made by a writer that succeeded, of its own plan, over exactly what it expected. */
  predicate MoveOk(writers: map<nat, Writer>, m: Move) {
    && m.who in writers
    && writers[m.who].phase.Committed?
    && writers[m.who].plan == m.plan
    && writers[m.who].expected == m.replaced
  }

  predicate HeadAfter(origin: Option<PlanId>, moves: seq<Move>, head: Option<PlanId>) {
    head == if moves == [] then origin else Some(moves[|moves| - 1].plan.id)
  }

  predicate Follows(origin: Option<PlanId>, moves: seq<Move>, i: nat)
    requires i < |moves|
  {
    moves[i].replaced == if i == 0 then origin else Some(moves[i - 1].plan.id)
  }

  /** The moves form one line: each replaced the version the one before it installed. */
  predicate OneLine(origin: Option<PlanId>, moves: seq<Move>) {
    forall i: nat :: i < |moves| ==> Follows(origin, moves, i)
  }

  lemma OneLineGrows(origin: Option<PlanId>, moves: seq<Move>, m: Move)
    requires OneLine(origin, moves) && HeadAfter(origin, moves, m.replaced)
    ensures OneLine(origin, moves + [m]) && HeadAfter(origin, moves + [m], Some(m.plan.id))
  {
    forall i: nat | i < |moves + [m]| ensures Follows(origin, moves + [m], i) {
      if i < |moves| {
        assert Follows(origin, moves, i);
      }
    }
  }

  ghost predicate MovesOk(origin: Option<PlanId>, s: Bucket) {
    && (forall i :: 0 <= i < |s.moves| ==> MoveOk(s.writers, s.moves[i]))
    && (forall i, j :: 0 <= i < j < |s.moves| ==> s.moves[i].who != s.moves[j].who)
    && (forall k: nat :: k in s.writers && s.writers[k].phase.Committed? ==> MovedBy(s.moves, k))
    && OneLine(origin, s.moves)
    && HeadAfter(origin, s.moves, s.head.content)
  }

  lemma HeldOnceHeld(versions: Versions, plan: Plan, more: Plan)
    requires Held(versions, plan) && more.id !in versions
    ensures Held(versions[more.id := more], plan)
  {
    assert plan.id != more.id;
  }

  lemma StepKeepsHead(s: Bucket, r: Request)
    requires HeadOk(s) && WritersOk(s) && Enabled(s, r)
    ensures HeadOk(Step(s, r))
  {
    assert r.who in s.writers ==> WriterOk(s, s.writers[r.who]);
  }

  lemma StepKeepsWriter(s: Bucket, r: Request, k: nat)
    requires HeadOk(s) && WritersOk(s) && Enabled(s, r) && k in Step(s, r).writers
    ensures WriterOk(Step(s, r), Step(s, r).writers[k])
  {
    assert k in s.writers ==> WriterOk(s, s.writers[k]);
    match r
    case PutHead(who, tag, _) =>
      PutKeeps(s.head, s.writers[who].plan.id, tag);
    case PutVersion(who, refused) =>
      if !refused && s.writers[who].plan.id !in s.versions && Held(s.versions, s.writers[k].plan) {
        HeldOnceHeld(s.versions, s.writers[k].plan, s.writers[who].plan);
      }
    case _ =>
  }

  lemma EnterKeepsMoves(origin: Option<PlanId>, s: Bucket, t: Bucket, who: nat)
    requires MovesOk(origin, s) && t.moves == s.moves && t.head.content == s.head.content
    requires forall k :: k in s.writers && s.writers[k].phase.Committed? ==>
               k in t.writers && t.writers[k] == s.writers[k]
    requires forall k :: k in t.writers && t.writers[k].phase.Committed? ==>
               k in s.writers && s.writers[k].phase.Committed?
    ensures MovesOk(origin, t)
  {
    forall i | 0 <= i < |t.moves| ensures MoveOk(t.writers, t.moves[i]) {
      assert MoveOk(s.writers, s.moves[i]);
    }
  }

  lemma CommitAddsAMove(origin: Option<PlanId>, s: Bucket, t: Bucket, who: nat, w: Writer)
    requires MovesOk(origin, s) && who in s.writers && s.writers[who] == w && !w.phase.Committed?
    requires t.writers == s.writers[who := w.(phase := Committed)]
    requires t.moves == s.moves + [Move(who, w.expected, w.plan)]
    requires s.head.content == w.expected && t.head.content == Some(w.plan.id)
    ensures MovesOk(origin, t)
  {
    var n := |s.moves|;
    OneLineGrows(origin, s.moves, Move(who, w.expected, w.plan));
    forall i | 0 <= i < |t.moves| ensures MoveOk(t.writers, t.moves[i]) && (i < n ==> t.moves[i].who != who) {
      if i < n {
        assert MoveOk(s.writers, s.moves[i]);
      }
    }
    forall k: nat | k in t.writers && t.writers[k].phase.Committed? ensures MovedBy(t.moves, k) {
      if k == who {
        assert t.moves[n].who == k;
      } else {
        var i :| 0 <= i < n && s.moves[i].who == k;
        assert t.moves[i].who == k;
      }
    }
  }

  lemma StepKeepsMoves(origin: Option<PlanId>, s: Bucket, r: Request)
    requires HeadOk(s) && WritersOk(s) && MovesOk(origin, s) && Enabled(s, r)
    ensures MovesOk(origin, Step(s, r))
  {
    var t := Step(s, r);
    if s.moves == t.moves {
      EnterKeepsMoves(origin, s, t, r.who);
    } else {
      var w := s.writers[r.who];
      assert WriterOk(s, w);
      AdmittedReplacesWhatWasRead(s.head, w.expected, w.phase.seen);
      CommitAddsAMove(origin, s, t, r.who, w);
    }
  }

  // ------------------------------------------------------------------ every run

  /** Under every interleaving of any number of commits: HEAD names a stored version; the moves of HEAD
      form one line from where it started, each replacing exactly what its writer expected; and a writer
      moved HEAD, once, exactly when its commit succeeded. */
  lemma {:induction false} EveryRunIsOneLine(s: Bucket, run: seq<Request>)
    requires Initial(s) && Runs(s, run)
    ensures HeadOk(After(s, run)) && WritersOk(After(s, run)) && MovesOk(s.head.content, After(s, run))
    decreases |run|
  {
    if run != [] {
      var before, r := After(s, run[..|run| - 1]), run[|run| - 1];
      EveryRunIsOneLine(s, run[..|run| - 1]);
      StepKeepsHead(before, r);
      forall k: nat | k in Step(before, r).writers ensures WriterOk(Step(before, r), Step(before, r).writers[k]) {
        StepKeepsWriter(before, r, k);
      }
      StepKeepsMoves(s.head.content, before, r);
    }
  }

  /** A commit that ended in a conflict never moved HEAD. */
  lemma ConflictedNeverMoved(s: Bucket, run: seq<Request>, who: nat)
    requires Initial(s) && Runs(s, run) && who in After(s, run).writers
    ensures After(s, run).writers[who].phase.Committed? <==> MovedBy(After(s, run).moves, who)
  {
    EveryRunIsOneLine(s, run);
    if MovedBy(After(s, run).moves, who) {
      var i :| 0 <= i < |After(s, run).moves| && After(s, run).moves[i].who == who;
      assert MoveOk(After(s, run).writers, After(s, run).moves[i]);
    }
  }

  /** No stored version ever changes or goes away, from any bucket on. */
  lemma {:induction false} VersionsNeverChange(s: Bucket, run: seq<Request>)
    requires Runs(s, run)
    ensures forall k :: k in s.versions ==> k in After(s, run).versions && After(s, run).versions[k] == s.versions[k]
    decreases |run|
  {
    if run != [] {
      VersionsNeverChange(s, run[..|run| - 1]);
    }
  }

  // ------------------------------------------------------ as if one at a time

  /** The successful commits, done one after another by a single writer. */
  function Serially(origin: Stores, moves: seq<Move>): Stores {
    if moves == [] then origin
    else
      var m := moves[|moves| - 1];
      ObjectCommit(Serially(origin, moves[..|moves| - 1]), m.plan, m.replaced).0
  }

  predicate AllStored(origin: Stores, moves: seq<Move>) {
    moves == [] ||
    (var m, before := moves[|moves| - 1], moves[..|moves| - 1];
     AllStored(origin, before) && ObjectCommit(Serially(origin, before), m.plan, m.replaced).1 == Stored(m.plan))
  }

  /** Same HEAD; every version of the serial history on file with the same content. */
  ghost predicate Mirrors(serial: Stores, versions: Versions, head: Option<PlanId>) {
    && serial.head == head
    && forall k :: k in serial.versions ==> k in versions && Content(serial.versions[k]) == Content(versions[k])
  }

  lemma CommitMirrors(origin: Stores, moves: seq<Move>, versions: Versions, m: Move)
    requires AllStored(origin, moves) && Mirrors(Serially(origin, moves), versions, m.replaced)
    requires Held(versions, m.plan)
    ensures AllStored(origin, moves + [m]) && Mirrors(Serially(origin, moves + [m]), versions, Some(m.plan.id))
  {
    assert (moves + [m])[..|moves|] == moves;
    var serial := Serially(origin, moves);
    assert ObjectCommit(serial, m.plan, m.replaced).1 == Stored(m.plan);
  }

  lemma StepMirrors(origin: Stores, s: Bucket, r: Request)
    requires HeadOk(s) && WritersOk(s) && Enabled(s, r)
    requires AllStored(origin, s.moves) && Mirrors(Serially(origin, s.moves), s.versions, s.head.content)
    ensures var t := Step(s, r);
            AllStored(origin, t.moves) && Mirrors(Serially(origin, t.moves), t.versions, t.head.content)
  {
    if Step(s, r).moves != s.moves {
      var w := s.writers[r.who];
      assert WriterOk(s, w);
      AdmittedReplacesWhatWasRead(s.head, w.expected, w.phase.seen);
      CommitMirrors(origin, s.moves, s.versions, Move(r.who, w.expected, w.plan));
    }
  }

  /** Every interleaving is as good as some order of whole commits: done one at a time in the order they
      moved HEAD, the successful commits all succeed again and leave the same HEAD and contents. */
  lemma {:induction false} EveryRunIsSerial(s: Bucket, run: seq<Request>)
    requires Initial(s) && Runs(s, run)
    ensures var origin := Stores(s.versions, s.head.content);
            && AllStored(origin, After(s, run).moves)
            && Mirrors(Serially(origin, After(s, run).moves), After(s, run).versions, After(s, run).head.content)
    decreases |run|
  {
    if run != [] {
      var before := run[..|run| - 1];
      EveryRunIsSerial(s, before);
      EveryRunIsOneLine(s, before);
      StepMirrors(Stores(s.versions, s.head.content), After(s, before), run[|run| - 1]);
    }
  }

  // ------------------------------------------------------------- the parent chain

  /** Every commit is of a new version, based on the version it expects to replace. */
  predicate FreshIds(versions: Versions, writers: map<nat, Writer>) {
    && (forall k :: k in writers ==>
          && writers[k].plan.id != "" && writers[k].plan.id !in versions
          && writers[k].plan.parentId == writers[k].expected)
    && (forall j, k :: j in writers && k in writers && j != k ==> writers[j].plan.id != writers[k].plan.id)
  }

  predicate WrittenBy(writers: map<nat, Writer>, plan: Plan) {
    exists k :: k in writers && writers[k].plan == plan
  }

  /** Versions come from the start or from some writer; writers never change what they set out to write. */
  lemma {:induction false} VersionsHaveWriters(s: Bucket, run: seq<Request>)
    requires Initial(s) && Runs(s, run)
    ensures forall k :: k in After(s, run).versions && k !in s.versions ==>
              After(s, run).versions[k].id == k && WrittenBy(After(s, run).writers, After(s, run).versions[k])
    decreases |run|
  {
    if run != [] {
      var before, r := After(s, run[..|run| - 1]), run[|run| - 1];
      VersionsHaveWriters(s, run[..|run| - 1]);
      var now := Step(before, r);
      forall k | k in now.versions && k !in s.versions
        ensures now.versions[k].id == k && WrittenBy(now.writers, now.versions[k])
      {
        if k in before.versions {
          var j :| j in before.writers && before.writers[j].plan == before.versions[k];
          assert j in now.writers && now.writers[j].plan == now.versions[k];
        } else {
          assert now.writers[r.who].plan == now.versions[k];
        }
      }
    }
  }

  function Plans(moves: seq<Move>): (r: seq<Plan>)
    ensures |r| == |moves| && forall i :: 0 <= i < |r| ==> r[i] == moves[i].plan
  {
    seq(|moves|, i requires 0 <= i < |moves| => moves[i].plan)
  }

  /** The plan of a move: on file, with an id of its own, and a child of what it replaced. */
  ghost predicate Recorded(earlier: Versions, versions: Versions, m: Move) {
    && m.plan.id != "" && m.plan.id !in earlier
    && m.plan.id in versions && versions[m.plan.id] == m.plan
    && m.plan.parentId == m.replaced
  }

  ghost predicate AllRecorded(earlier: Versions, versions: Versions, moves: seq<Move>) {
    && (forall i :: 0 <= i < |moves| ==> Recorded(earlier, versions, moves[i]))
    && (forall i, j :: 0 <= i < j < |moves| ==> moves[i].plan.id != moves[j].plan.id)
  }

  /** Every commit names its version and bases it on the version it expects to replace. */
  predicate WellBased(writers: map<nat, Writer>) {
    forall k :: k in writers ==> writers[k].plan.id != "" && writers[k].plan.parentId == writers[k].expected
  }

  /** Each of these versions is what is on file under its id, and no id is among them twice. */
  predicate OnFileOnce(versions: Versions, plans: seq<Plan>) {
    && (forall i :: 0 <= i < |plans| ==> plans[i].id in versions && versions[plans[i].id] == plans[i])
    && (forall i, j :: 0 <= i < j < |plans| ==> plans[i].id != plans[j].id)
  }

  /** A line of descent carried on by well-based moves is one longer line of descent, if all of it is on file. */
  lemma MovesExtendTheLine(
    earlier: Versions, versions: Versions, line: seq<Plan>, moves: seq<Move>, writers: map<nat, Writer>)
    requires Descent(earlier, line) && OneLine(EndOf(line), moves) && WellBased(writers)
    requires forall i :: 0 <= i < |moves| ==> MoveOk(writers, moves[i])
    requires OnFileOnce(versions, line + Plans(moves))
    ensures Descent(versions, line + Plans(moves))
  {
    var plans := Plans(moves);
    forall i: nat | i < |plans| ensures GoesOn(EndOf(line), plans, i) {
      assert MoveOk(writers, moves[i]) && Follows(EndOf(line), moves, i);
    }
    LineGoesOn(earlier, versions, line, plans);
  }

  /** A named version whose parent is the one before it. */
  predicate GoesOn(origin: Option<PlanId>, plans: seq<Plan>, i: nat)
    requires i < |plans|
  {
    plans[i].id != "" && plans[i].parentId == if i == 0 then origin else Some(plans[i - 1].id)
  }

  lemma LineGoesOn(earlier: Versions, versions: Versions, line: seq<Plan>, plans: seq<Plan>)
    requires Descent(earlier, line) && OnFileOnce(versions, line + plans)
    requires forall i: nat :: i < |plans| ==> GoesOn(EndOf(line), plans, i)
    ensures Descent(versions, line + plans)
  {
    var whole, n := line + plans, |line|;
    forall i: nat | i < |whole|
      ensures whole[i].id != ""
      ensures i == 0 ==> whole[i].parentId.None?
      ensures i > 0 ==> whole[i].parentId == Some(whole[i - 1].id)
    {
      if i >= n {
        assert GoesOn(EndOf(line), plans, i - n);
      }
    }
  }

  lemma HeadEndsTheLine(line: seq<Plan>, moves: seq<Move>, head: Option<PlanId>)
    requires HeadAfter(EndOf(line), moves, head)
    ensures head == EndOf(line + Plans(moves))
  {
  }

  lemma {:induction false} ReversedAt<T>(s: seq<T>, i: nat)
    requires i < |s|
    ensures Reverse(s)[|s| - 1 - i] == s[i]
  {
    if i < |s| - 1 {
      ReversedAt(s[..|s| - 1], i);
    }
  }

  /** What a walk lists is on file, once. */
  lemma WalkedIsOnFileOnce(versions: Versions, head: Option<PlanId>, plans: seq<Plan>)
    requires FiledUnderOwnIds(versions) && Ancestry(versions, head, None) == Reverse(plans)
    ensures OnFileOnce(versions, plans)
  {
    ChainFollowsParents(versions, StartOf(versions, head, None), {});
    var chain, n := Ancestry(versions, head, None), |plans| - 1;
    forall i | 0 <= i < |plans| ensures plans[i] == chain[n - i] && versions[plans[i].id] == plans[i] {
      ReversedAt(plans, i);
      var k :| k in versions && versions[k] == chain[n - i];
    }
    forall i, j | 0 <= i < j < |plans| ensures plans[i].id != plans[j].id {
      assert chain[n - j].id != chain[n - i].id;
    }
  }

  /** Exactly when the parent chain from HEAD is the whole history, the successful commits newest first and then
      what was there before: when each of these versions is what is on file under its id, and none repeats another.
      A retry of content already stored commits the version on file, with the parent it had. */
  lemma AncestryIsTheHistoryIff(s: Bucket, run: seq<Request>, line: seq<Plan>)
    requires Initial(s) && Runs(s, run)
    requires Descent(s.versions, line) && s.head.content == EndOf(line)
    requires WellBased(After(s, run).writers)
    ensures var t := After(s, run);
            Ancestry(t.versions, t.head.content, None) == Reverse(line + Plans(t.moves)) <==>
            OnFileOnce(t.versions, line + Plans(t.moves))
  {
    var t := After(s, run);
    var whole := line + Plans(t.moves);
    EveryRunIsOneLine(s, run);
    if OnFileOnce(t.versions, whole) {
      MovesExtendTheLine(s.versions, t.versions, line, t.moves, t.writers);
      HeadEndsTheLine(line, t.moves, t.head.content);
      DescentIsTheAncestry(t.versions, t.head.content, whole);
    }
    if Ancestry(t.versions, t.head.content, None) == Reverse(whole) {
      WalkedIsOnFileOnce(t.versions, t.head.content, whole);
    }
  }

  /** With fresh ids it always is: nothing committed is lost and nothing else is in it. */
  lemma AncestryIsTheHistory(s: Bucket, run: seq<Request>, line: seq<Plan>)
    requires Initial(s) && Runs(s, run)
    requires Descent(s.versions, line) && s.head.content == EndOf(line)
    requires FreshIds(s.versions, After(s, run).writers)
    ensures var t := After(s, run);
            Ancestry(t.versions, t.head.content, None) == Reverse(line + Plans(t.moves))
  {
    FreshAreOnFileOnce(s, run, line);
    AncestryIsTheHistoryIff(s, run, line);
  }

  lemma FreshAreOnFileOnce(s: Bucket, run: seq<Request>, line: seq<Plan>)
    requires Initial(s) && Runs(s, run) && Descent(s.versions, line)
    requires FreshIds(s.versions, After(s, run).writers)
    ensures OnFileOnce(After(s, run).versions, line + Plans(After(s, run).moves))
  {
    VersionsNeverChange(s, run);
    CommittedAreOnFile(s, run);
    RecordedOnce(s.versions, After(s, run).versions, line, After(s, run).moves);
  }

  lemma RecordedOnce(earlier: Versions, versions: Versions, line: seq<Plan>, moves: seq<Move>)
    requires Descent(earlier, line) && AllRecorded(earlier, versions, moves)
    requires forall k :: k in earlier ==> k in versions && versions[k] == earlier[k]
    ensures OnFileOnce(versions, line + Plans(moves))
  {
    var whole, n := line + Plans(moves), |line|;
    forall i | 0 <= i < |whole| ensures whole[i].id in versions && versions[whole[i].id] == whole[i] {
      if i >= n {
        assert Recorded(earlier, versions, moves[i - n]);
      }
    }
    forall i, j | 0 <= i < j < |whole| ensures whole[i].id != whole[j].id {
      if j >= n {
        assert Recorded(earlier, versions, moves[j - n]);
      }
    }
  }

  lemma CommittedAreOnFile(s: Bucket, run: seq<Request>)
    requires Initial(s) && Runs(s, run)
    requires FreshIds(s.versions, After(s, run).writers)
    ensures AllRecorded(s.versions, After(s, run).versions, After(s, run).moves)
  {
    var t := After(s, run);
    EveryRunIsOneLine(s, run);
    VersionsHaveWriters(s, run);
    forall i | 0 <= i < |t.moves| ensures Recorded(s.versions, t.versions, t.moves[i]) {
      assert MoveOk(t.writers, t.moves[i]);
      assert WriterOk(t, t.writers[t.moves[i].who]);
      var id := t.moves[i].plan.id;
      assert WrittenBy(t.writers, t.versions[id]);
      var k :| k in t.writers && t.writers[k].plan == t.versions[id];
    }
    forall i, j | 0 <= i < j < |t.moves| ensures t.moves[i].plan.id != t.moves[j].plan.id {
      assert MoveOk(t.writers, t.moves[i]) && MoveOk(t.writers, t.moves[j]);
    }
  }

  /** With fresh ids no version is ever replaced twice, so of all writers that set out from one version
      at most one succeeds. */
  lemma OneSuccessorEach(s: Bucket, run: seq<Request>, j: nat, k: nat)
    requires Initial(s) && Runs(s, run) && FreshIds(s.versions, After(s, run).writers)
    requires j in After(s, run).writers && k in After(s, run).writers && j != k
    requires After(s, run).writers[j].phase.Committed? && After(s, run).writers[k].phase.Committed?
    ensures After(s, run).writers[j].expected != After(s, run).writers[k].expected
  {
    var a := MoveOf(s, run, j);
    var b := MoveOf(s, run, k);
    LaterReplacesAnother(s, run, if a < b then a else b, if a < b then b else a);
  }

  lemma MoveOf(s: Bucket, run: seq<Request>, j: nat) returns (a: nat)
    requires Initial(s) && Runs(s, run)
    requires j in After(s, run).writers && After(s, run).writers[j].phase.Committed?
    ensures var t := After(s, run);
            a < |t.moves| && t.moves[a].who == j && t.moves[a].replaced == t.writers[j].expected
  {
    EveryRunIsOneLine(s, run);
    var moves := After(s, run).moves;
    a :| 0 <= a < |moves| && moves[a].who == j;
    assert MoveOk(After(s, run).writers, moves[a]);
  }

  lemma LaterReplacesAnother(s: Bucket, run: seq<Request>, a: nat, b: nat)
    requires Initial(s) && Runs(s, run) && FreshIds(s.versions, After(s, run).writers)
    requires a < b < |After(s, run).moves|
    ensures After(s, run).moves[a].replaced != After(s, run).moves[b].replaced
  {
    var t := After(s, run);
    EveryRunIsOneLine(s, run);
    CommittedAreOnFile(s, run);
    InstalledOnce(s.versions, t.versions, s.head.content, t.moves, a, b);
  }

  lemma InstalledOnce(
    earlier: Versions, versions: Versions, origin: Option<PlanId>, moves: seq<Move>, a: nat, b: nat)
    requires AllRecorded(earlier, versions, moves) && OneLine(origin, moves) && a < b < |moves|
    requires origin.Some? ==> origin.value in earlier
    ensures moves[a].replaced != moves[b].replaced
  {
    assert Follows(origin, moves, a) && Follows(origin, moves, b);
    assert Recorded(earlier, versions, moves[b - 1]);
  }

  // ------------------------------------------------------------- one writer alone

  /** The requests of one commit with nobody in between and no spurious refusal. */
  function Alone(s: Bucket, who: nat, plan: Plan, expected: Option<PlanId>, tag: Tag): seq<Request> {
    [Begin(who, plan, expected), ReadHead(who)] +
    if s.head.content != expected then []
    else
      [PutVersion(who, false)] +
      (if plan.id in s.versions then [ReadVersion(who)] else []) +
      (if plan.id in s.versions && !Held(s.versions, plan) then [] else [PutHead(who, tag, false)])
  }

  lemma ThenOne(s: Bucket, run: seq<Request>, r: Request)
    requires Runs(s, run) && Enabled(After(s, run), r)
    ensures Runs(s, run + [r]) && After(s, run + [r]) == Step(After(s, run), r)
  {
    assert (run + [r])[..|run|] == run;
  }

  /** HEAD read and compared. */
  lemma AloneReads(s: Bucket, who: nat, plan: Plan, expected: Option<PlanId>)
    requires who !in s.writers
    ensures var run := [Begin(who, plan, expected), ReadHead(who)];
            Runs(s, run) && After(s, run) == s.(writers := s.writers[who := Writer(plan, expected,
              if s.head.content != expected then Conflicted(s.head.content) else Matched(TagOf(s.head)))])
  {
    var first := [Begin(who, plan, expected)];
    var begun := s.(writers := s.writers[who := Writer(plan, expected, Begun)]);
    ThenOne(s, [], Begin(who, plan, expected));
    assert [] + first == first && After(s, first) == begun;
    ThenOne(s, first, ReadHead(who));
    assert first + [ReadHead(who)] == [Begin(who, plan, expected), ReadHead(who)];
    assert begun.writers[who].expected == expected;
  }

  lemma AfterPutVersion(s: Bucket, t: Bucket, who: nat, w: Writer)
    requires t == s.(writers := s.writers[who := w]) && w.phase.Matched?
    ensures Step(t, PutVersion(who, false)) ==
            if w.plan.id in s.versions then s.(writers := s.writers[who := w.(phase := VersionRefused(w.phase.seen))])
            else s.(versions := s.versions[w.plan.id := w.plan],
                    writers := s.writers[who := w.(phase := VersionStored(w.phase.seen))])
  {
    assert t.writers[who := w.(phase := VersionRefused(w.phase.seen))]
        == s.writers[who := w.(phase := VersionRefused(w.phase.seen))];
    assert t.writers[who := w.(phase := VersionStored(w.phase.seen))]
        == s.writers[who := w.(phase := VersionStored(w.phase.seen))];
  }

  /** The version is on file, written now or before. */
  lemma AloneStores(s: Bucket, who: nat, plan: Plan, expected: Option<PlanId>)
    requires who !in s.writers && s.head.content == expected
    ensures var run := [Begin(who, plan, expected), ReadHead(who), PutVersion(who, false)]
                       + if plan.id in s.versions then [ReadVersion(who)] else [];
            Runs(s, run) && After(s, run) == s.(
              versions := if plan.id in s.versions then s.versions else s.versions[plan.id := plan],
              writers := s.writers[who := Writer(plan, expected,
                if plan.id in s.versions && !Held(s.versions, plan) then Conflicted(expected)
                else VersionStored(TagOf(s.head)))])
  {
    AloneReads(s, who, plan, expected);
    var run, longer := [Begin(who, plan, expected), ReadHead(who)],
                       [Begin(who, plan, expected), ReadHead(who), PutVersion(who, false)];
    ThenOne(s, run, PutVersion(who, false));
    assert run + [PutVersion(who, false)] == longer;
    AfterPutVersion(s, After(s, run), who, Writer(plan, expected, Matched(TagOf(s.head))));
    if plan.id in s.versions {
      ThenOne(s, longer, ReadVersion(who));
    } else {
      assert longer + [] == longer;
    }
  }

  /** A commit left alone does exactly what the one-step commit does, and nothing else. */
  lemma AloneIsOneCommit(s: Bucket, who: nat, plan: Plan, expected: Option<PlanId>, tag: Tag)
    requires who !in s.writers && MayTag(s.head, tag, plan.id)
    ensures var run := Alone(s, who, plan, expected, tag);
            Runs(s, run) && DoneAlone(s, After(s, run), who, plan, expected, tag)
  {
    if s.head.content != expected {
      AloneReads(s, who, plan, expected);
      assert Alone(s, who, plan, expected, tag) == [Begin(who, plan, expected), ReadHead(who)];
    } else {
      AloneStores(s, who, plan, expected);
      if plan.id !in s.versions || Held(s.versions, plan) {
        AloneMovesHead(s, who, plan, expected, tag);
      } else {
        assert [Begin(who, plan, expected), ReadHead(who), PutVersion(who, false)] + [ReadVersion(who)]
            == Alone(s, who, plan, expected, tag);
      }
    }
  }

  lemma AloneMovesHead(s: Bucket, who: nat, plan: Plan, expected: Option<PlanId>, tag: Tag)
    requires who !in s.writers && MayTag(s.head, tag, plan.id) && s.head.content == expected
    requires plan.id !in s.versions || Held(s.versions, plan)
    ensures var run := Alone(s, who, plan, expected, tag);
            Runs(s, run) && DoneAlone(s, After(s, run), who, plan, expected, tag)
  {
    AloneStores(s, who, plan, expected);
    var run := [Begin(who, plan, expected), ReadHead(who), PutVersion(who, false)]
               + if plan.id in s.versions then [ReadVersion(who)] else [];
    ThenOne(s, run, PutHead(who, tag, false));
    assert run + [PutHead(who, tag, false)] == Alone(s, who, plan, expected, tag);
    assert After(s, run).writers[who := Writer(plan, expected, Committed)]
        == s.writers[who := Writer(plan, expected, Committed)];
  }

  /** What the one-step commit of the object store would have done. */
  ghost predicate DoneAlone(s: Bucket, t: Bucket, who: nat, plan: Plan, expected: Option<PlanId>, tag: Tag) {
    var (stores, outcome) := ObjectCommit(Stores(s.versions, s.head.content), plan, expected);
    && t.versions == stores.versions
    && t.head == (if outcome.Stored? then Put(s.head, plan.id, tag) else s.head)
    && t.moves == s.moves + (if outcome.Stored? then [Move(who, expected, plan)] else [])
    && t.writers == s.writers[who := Writer(plan, expected, if outcome.Stored? then Committed
                                                            else Conflicted(outcome.actual))]
  }

  // --------------------------------------------------- a retry that loses the winner

  lemma {:induction false} RunsJoin(s: Bucket, run: seq<Request>, more: seq<Request>)
    requires Runs(s, run) && Runs(After(s, run), more)
    ensures Runs(s, run + more) && After(s, run + more) == After(After(s, run), more)
    decreases |more|
  {
    if more == [] {
      assert run + more == run;
    } else {
      var n := |more| - 1;
      RunsJoin(s, run, more[..n]);
      ThenOne(s, run + more[..n], more[n]);
      assert run + more == run + more[..n] + [more[n]];
    }
  }

  /** Writer 1 stores `plan`, based on what HEAD names, and before it can move HEAD writer 0 commits `winner` from
      the same version. Writer 2 then retries the same decisions, under the same id, from the winner. */
  function LoseAndRetry(s: Bucket, plan: Plan, winner: Plan, retry: Plan, tag: Tag, last: Tag): seq<Request> {
    var base := s.head.content;
    [Begin(1, plan, base), ReadHead(1), PutVersion(1, false)]
    + Alone(WithStored(s, plan), 0, winner, base, tag)
    + [PutHead(1, last, false), ReadActual(1)]
    + Alone(WithLost(s, plan, winner, tag), 2, retry, Some(winner.id), last)
  }

  function WithStored(s: Bucket, plan: Plan): Bucket {
    s.(versions := s.versions[plan.id := plan],
       writers := s.writers[1 := Writer(plan, s.head.content, VersionStored(TagOf(s.head)))])
  }

  function WithWon(s: Bucket, plan: Plan, winner: Plan, tag: Tag, phase: Phase): Bucket {
    Bucket(s.versions[plan.id := plan][winner.id := winner], Put(s.head, winner.id, tag),
           s.writers[1 := Writer(plan, s.head.content, phase)][0 := Writer(winner, s.head.content, Committed)],
           s.moves + [Move(0, s.head.content, winner)])
  }

  function WithLost(s: Bucket, plan: Plan, winner: Plan, tag: Tag): Bucket {
    WithWon(s, plan, winner, tag, Conflicted(Some(winner.id)))
  }

  /** Three versions that differ from those on file, the retry only in its parent from the one it retries. */
  ghost predicate Retries(s: Bucket, plan: Plan, winner: Plan, retry: Plan) {
    && plan.id != "" && winner.id != "" && plan.id != winner.id
    && plan.id !in s.versions && winner.id !in s.versions
    && plan.parentId == s.head.content && winner.parentId == s.head.content
    && retry == plan.(parentId := Some(winner.id))
  }

  lemma TheWinnerCommits(s: Bucket, plan: Plan, winner: Plan, tag: Tag)
    requires s.writers == map[] && plan.id !in s.versions && winner.id !in s.versions && plan.id != winner.id
    requires tag !in s.head.issued
    ensures var run := [Begin(1, plan, s.head.content), ReadHead(1), PutVersion(1, false)]
                       + Alone(WithStored(s, plan), 0, winner, s.head.content, tag);
            Runs(s, run) && After(s, run) == WithWon(s, plan, winner, tag, VersionStored(TagOf(s.head)))
  {
    var base := s.head.content;
    var first := [Begin(1, plan, base), ReadHead(1), PutVersion(1, false)];
    AloneStores(s, 1, plan, base);
    assert first + [] == first;
    AloneIsOneCommit(WithStored(s, plan), 0, winner, base, tag);
    RunsJoin(s, first, Alone(WithStored(s, plan), 0, winner, base, tag));
  }

  lemma TheLoserIsRefused(
    s: Bucket, run: seq<Request>, plan: Plan, winner: Plan, tag: Tag, last: Tag, before: Bucket)
    requires before.writers == map[] && Valid(before.head) && tag !in before.head.issued && last !in before.head.issued
    requires tag != last
    requires Runs(s, run) && After(s, run) == WithWon(before, plan, winner, tag, VersionStored(TagOf(before.head)))
    ensures var more := run + [PutHead(1, last, false), ReadActual(1)];
            Runs(s, more) && After(s, more) == WithLost(before, plan, winner, tag)
  {
    TheLoserWakes(before, plan, winner, tag, last);
    ThenOne(s, run, PutHead(1, last, false));
    ThenOne(s, run + [PutHead(1, last, false)], ReadActual(1));
    assert run + [PutHead(1, last, false)] + [ReadActual(1)] == run + [PutHead(1, last, false), ReadActual(1)];
  }

  lemma TheLoserWakes(s: Bucket, plan: Plan, winner: Plan, tag: Tag, last: Tag)
    requires Valid(s.head) && tag !in s.head.issued && last !in s.head.issued && tag != last
    ensures var won := WithWon(s, plan, winner, tag, VersionStored(TagOf(s.head)));
            && Enabled(won, PutHead(1, last, false))
            && Step(won, PutHead(1, last, false)) == WithWon(s, plan, winner, tag, HeadRefused)
    ensures Step(WithWon(s, plan, winner, tag, HeadRefused), ReadActual(1)) == WithLost(s, plan, winner, tag)
  {
    var won := WithWon(s, plan, winner, tag, VersionStored(TagOf(s.head)));
    assert !Admits(won.head, TagOf(s.head));
    assert won.writers[1 := won.writers[1].(phase := HeadRefused)]
        == WithWon(s, plan, winner, tag, HeadRefused).writers;
    var stale := WithWon(s, plan, winner, tag, HeadRefused);
    assert stale.writers[1 := won.writers[1].(phase := Conflicted(Some(winner.id)))]
        == WithLost(s, plan, winner, tag).writers;
  }

  lemma TheRaceIsLost(s: Bucket, plan: Plan, winner: Plan, retry: Plan, tag: Tag, last: Tag)
    requires Initial(s) && Retries(s, plan, winner, retry) && tag !in s.head.issued && last !in s.head.issued
    requires tag != last
    ensures var run := [Begin(1, plan, s.head.content), ReadHead(1), PutVersion(1, false)]
                       + Alone(WithStored(s, plan), 0, winner, s.head.content, tag)
                       + [PutHead(1, last, false), ReadActual(1)];
            Runs(s, run) && After(s, run) == WithLost(s, plan, winner, tag)
  {
    TheWinnerCommits(s, plan, winner, tag);
    TheLoserIsRefused(s, [Begin(1, plan, s.head.content), ReadHead(1), PutVersion(1, false)]
                         + Alone(WithStored(s, plan), 0, winner, s.head.content, tag), plan, winner, tag, last, s);
  }

  lemma RetriesAreHeld(s: Bucket, plan: Plan, winner: Plan, retry: Plan, tag: Tag, last: Tag)
    requires s.writers == map[] && s.moves == [] && Retries(s, plan, winner, retry)
    requires last !in s.head.issued && tag != last
    ensures var lost, run := WithLost(s, plan, winner, tag),
                             Alone(WithLost(s, plan, winner, tag), 2, retry, Some(winner.id), last);
            Runs(lost, run) && var t := After(lost, run);
            && WellBased(t.writers) && Plans(t.moves) == [winner, retry]
            && t.versions == s.versions[plan.id := plan][winner.id := winner] && t.head.content == Some(plan.id)
  {
    var lost, run := WithLost(s, plan, winner, tag),
                     Alone(WithLost(s, plan, winner, tag), 2, retry, Some(winner.id), last);
    AloneIsOneCommit(lost, 2, retry, Some(winner.id), last);
    RetriedEnds(s, After(lost, run), plan, winner, retry, tag, last);
  }

  lemma RetriedEnds(s: Bucket, t: Bucket, plan: Plan, winner: Plan, retry: Plan, tag: Tag, last: Tag)
    requires s.writers == map[] && s.moves == [] && Retries(s, plan, winner, retry)
    requires DoneAlone(WithLost(s, plan, winner, tag), t, 2, retry, Some(winner.id), last)
    ensures WellBased(t.writers) && Plans(t.moves) == [winner, retry]
    ensures t.versions == s.versions[plan.id := plan][winner.id := winner] && t.head.content == Some(plan.id)
  {
    assert Content(retry) == Content(plan);
  }

  /** The retry the commit code is written to accept: every writer well based, both commits successful, and the
      winner no longer in the history, because what is on file under the retried id still names its first parent. */
  lemma RetryDropsTheWinner(
    s: Bucket, line: seq<Plan>, plan: Plan, winner: Plan, retry: Plan, tag: Tag, last: Tag)
    requires Initial(s) && Retries(s, plan, winner, retry) && tag !in s.head.issued && last !in s.head.issued
    requires tag != last && Descent(s.versions, line) && s.head.content == EndOf(line)
    ensures var run := LoseAndRetry(s, plan, winner, retry, tag, last);
            Runs(s, run) && var t := After(s, run);
            && WellBased(t.writers) && Plans(t.moves) == [winner, retry]
            && Ancestry(t.versions, t.head.content, None) == Reverse(line + [plan])
            && winner !in line + [plan]
  {
    TheRaceIsLost(s, plan, winner, retry, tag, last);
    RetriesAreHeld(s, plan, winner, retry, tag, last);
    var run := [Begin(1, plan, s.head.content), ReadHead(1), PutVersion(1, false)]
               + Alone(WithStored(s, plan), 0, winner, s.head.content, tag)
               + [PutHead(1, last, false), ReadActual(1)];
    var more := Alone(WithLost(s, plan, winner, tag), 2, retry, Some(winner.id), last);
    RunsJoin(s, run, more);
    RetriedLineage(s.versions, line, plan, winner);
  }

  lemma RetriedLineage(versions: Versions, line: seq<Plan>, plan: Plan, winner: Plan)
    requires Descent(versions, line) && plan.id != "" && plan.parentId == EndOf(line) && plan.id != winner.id
    requires plan.id !in versions && winner.id !in versions
    ensures Ancestry(versions[plan.id := plan][winner.id := winner], Some(plan.id), None) == Reverse(line + [plan])
    ensures winner !in line + [plan]
  {
    var now := versions[plan.id := plan][winner.id := winner];
    DescentGrows(versions, now, line, plan);
    DescentIsTheAncestry(now, Some(plan.id), line + [plan]);
  }

  lemma DescentGrows(earlier: Versions, versions: Versions, line: seq<Plan>, plan: Plan)
    requires Descent(earlier, line) && plan.id != "" && plan.id !in earlier && plan.parentId == EndOf(line)
    requires forall k :: k in earlier ==> k in versions && versions[k] == earlier[k]
    requires plan.id in versions && versions[plan.id] == plan
    ensures Descent(versions, line + [plan])
  {
  }
}
