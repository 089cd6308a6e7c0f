/** Any number of writers appending to the event log at once: each append reads the whole object and
    writes it back under the tag it was read at (persistence/s3.py). */
module AppendProtocol {
  import opened Collections
  import opened ConditionalObject

  datatype Phase<E> =
    | Begun
    | Loaded(existing: seq<E>, seen: Option<Tag>)
    | Appended
    | Conflicted

  datatype Writer<E> = Writer(events: seq<E>, phase: Phase<E>)

  datatype Log<E> = Log(file: Object<seq<E>>, writers: map<nat, Writer<E>>, order: seq<nat>)

  datatype Request<E> =
    | Begin(who: nat, events: seq<E>)
    | Load(who: nat)
    | Write(who: nat, tag: Tag, refused: bool)

  /** What a reader of the log sees. */
  function Contents<E>(s: Log<E>): seq<E> { if s.file.content.Some? then s.file.content.value else [] }

  ghost predicate Enabled<E>(s: Log<E>, r: Request<E>) {
    match r
    case Begin(who, _) => who !in s.writers
    case Load(who) => who in s.writers && s.writers[who].phase.Begun?
    case Write(who, tag, _) =>
      && who in s.writers && s.writers[who].phase.Loaded?
      && MayTag(s.file, tag, s.writers[who].phase.existing + s.writers[who].events)
  }

  function Enter<E>(s: Log<E>, who: nat, phase: Phase<E>): Log<E>
    requires who in s.writers
  {
    s.(writers := s.writers[who := s.writers[who].(phase := phase)])
  }

  /** An append of nothing returns at once; any other reads, then writes everything back. */
  ghost function Step<E>(s: Log<E>, r: Request<E>): Log<E>
    requires Enabled(s, r)
  {
    match r
    case Begin(who, events) =>
      var t := s.(writers := s.writers[who := Writer(events, if events == [] then Appended else Begun)]);
      if events == [] then t.(order := s.order + [who]) else t
    case Load(who) => Enter(s, who, Loaded(Contents(s), TagOf(s.file)))
    case Write(who, tag, refused) =>
      var w := s.writers[who];
      if !refused && Admits(s.file, w.phase.seen) then
        Enter(s, who, Appended).(file := Put(s.file, w.phase.existing + w.events, tag), order := s.order + [who])
      else Enter(s, who, Conflicted)
  }

  ghost predicate Runs<E(!new)>(s: Log<E>, run: seq<Request<E>>)
    decreases |run|, 0
  {
    run == [] || (Runs(s, run[..|run| - 1]) && Enabled(After(s, run[..|run| - 1]), run[|run| - 1]))
  }

  ghost function After<E(!new)>(s: Log<E>, run: seq<Request<E>>): Log<E>
    requires Runs(s, run)
    decreases |run|, 1
  {
    if run == [] then s else Step(After(s, run[..|run| - 1]), run[|run| - 1])
  }

  /** The batches of the writers in `order`, end to end. */
  function Batches<E>(writers: map<nat, Writer<E>>, order: seq<nat>): seq<E>
    requires forall i :: 0 <= i < |order| ==> order[i] in writers
  {
    if order == [] then []
    else Batches(writers, order[..|order| - 1]) + writers[order[|order| - 1]].events
  }

  lemma {:induction false} BatchesStay<E>(before: map<nat, Writer<E>>, after: map<nat, Writer<E>>, order: seq<nat>)
    requires forall i :: 0 <= i < |order| ==> order[i] in before && order[i] in after
    requires forall i :: 0 <= i < |order| ==> before[order[i]].events == after[order[i]].events
    ensures Batches(before, order) == Batches(after, order)
    decreases |order|
  {
    if order != [] {
      BatchesStay(before, after, order[..|order| - 1]);
    }
  }

  ghost predicate Initial<E>(s: Log<E>) { s.writers == map[] && s.order == [] && Valid(s.file) }

  ghost predicate WriterOk<E>(s: Log<E>, w: Writer<E>) {
    w.phase.Loaded? ==>
      && (w.phase.seen.None? ==> w.phase.existing == [])
      && Observed(s.file, if w.phase.seen.None? then None else Some(w.phase.existing), w.phase.seen)
  }

  ghost predicate WritersOk<E>(s: Log<E>) {
    Valid(s.file) && forall k :: k in s.writers ==> WriterOk(s, s.writers[k])
  }

  predicate Listed(order: seq<nat>, who: nat) { who in order }

  /** `order` lists exactly the writers that succeeded, each once. */
  predicate OrderOk<E>(s: Log<E>) {
    && (forall i :: 0 <= i < |s.order| ==> s.order[i] in s.writers)
    && (forall k: nat :: k in s.writers ==> (s.writers[k].phase.Appended? <==> Listed(s.order, k)))
    && Distinct(s.order)
  }

  ghost predicate HoldsAll<E>(first: seq<E>, s: Log<E>)
    requires OrderOk(s)
  {
    Contents(s) == first + Batches(s.writers, s.order)
  }

  lemma StepKeepsWriters<E>(s: Log<E>, r: Request<E>)
    requires WritersOk(s) && Enabled(s, r)
    ensures WritersOk(Step(s, r))
  {
    var t := Step(s, r);
    if r.Write? {
      PutKeeps(s.file, s.writers[r.who].phase.existing + s.writers[r.who].events, r.tag);
    }
    forall k | k in t.writers ensures WriterOk(t, t.writers[k]) {
      assert k in s.writers ==> WriterOk(s, s.writers[k]);
    }
  }

  lemma OrderGrows<E>(s: Log<E>, t: Log<E>, who: nat, w: Writer<E>)
    requires OrderOk(s) && (who in s.writers ==> !s.writers[who].phase.Appended? && s.writers[who].events == w.events)
    requires t.writers == s.writers[who := w] && w.phase.Appended? && t.order == s.order + [who]
    ensures OrderOk(t) && Batches(t.writers, t.order) == Batches(s.writers, s.order) + w.events
  {
    assert t.order[..|s.order|] == s.order;
    assert !Listed(s.order, who);
    forall k: nat | k in t.writers ensures t.writers[k].phase.Appended? <==> Listed(t.order, k) {
      if k != who {
        assert Listed(t.order, k) <==> Listed(s.order, k);
      }
    }
    BatchesStay(s.writers, t.writers, s.order);
  }

  lemma OrderStays<E>(s: Log<E>, t: Log<E>, who: nat, w: Writer<E>)
    requires OrderOk(s) && (who in s.writers ==> !s.writers[who].phase.Appended? && s.writers[who].events == w.events)
    requires t.writers == s.writers[who := w] && !w.phase.Appended? && t.order == s.order
    ensures OrderOk(t) && Batches(t.writers, t.order) == Batches(s.writers, s.order)
  {
    assert !Listed(s.order, who);
    BatchesStay(s.writers, t.writers, s.order);
  }

  /** A write let through replaces what was loaded by that and the batch, so it appends to the log as it is. */
  lemma WriteAppends<E>(s: Log<E>, who: nat, tag: Tag)
    requires WritersOk(s) && Enabled(s, Write(who, tag, false)) && Admits(s.file, s.writers[who].phase.seen)
    ensures Contents(Step(s, Write(who, tag, false))) == Contents(s) + s.writers[who].events
  {
    var w := s.writers[who];
    assert WriterOk(s, w);
    AdmittedReplacesWhatWasRead(s.file, if w.phase.seen.None? then None else Some(w.phase.existing), w.phase.seen);
  }

  lemma WriteKeepsAll<E>(first: seq<E>, s: Log<E>, who: nat, tag: Tag)
    requires WritersOk(s) && OrderOk(s) && HoldsAll(first, s)
    requires Enabled(s, Write(who, tag, false)) && Admits(s.file, s.writers[who].phase.seen)
    ensures OrderOk(Step(s, Write(who, tag, false))) && HoldsAll(first, Step(s, Write(who, tag, false)))
  {
    var t := Step(s, Write(who, tag, false));
    WriteAddsABatch(s, who, tag);
    WriteAppends(s, who, tag);
    Regroup(first, Batches(s.writers, s.order), s.writers[who].events);
  }

  lemma WriteAddsABatch<E>(s: Log<E>, who: nat, tag: Tag)
    requires OrderOk(s) && Enabled(s, Write(who, tag, false)) && Admits(s.file, s.writers[who].phase.seen)
    ensures var t := Step(s, Write(who, tag, false));
            OrderOk(t) && Batches(t.writers, t.order) == Batches(s.writers, s.order) + s.writers[who].events
  {
    var t := Step(s, Write(who, tag, false));
    OrderGrows(s, t, who, t.writers[who]);
  }

  lemma StepKeepsAll<E>(first: seq<E>, s: Log<E>, r: Request<E>)
    requires WritersOk(s) && OrderOk(s) && HoldsAll(first, s) && Enabled(s, r)
    ensures OrderOk(Step(s, r)) && HoldsAll(first, Step(s, r))
  {
    var t := Step(s, r);
    if r.Write? && !r.refused && Admits(s.file, s.writers[r.who].phase.seen) {
      WriteKeepsAll(first, s, r.who, r.tag);
    } else if r.Begin? && r.events == [] {
      OrderGrows(s, t, r.who, t.writers[r.who]);
      assert Contents(t) == Contents(s);
    } else {
      OrderStays(s, t, r.who, t.writers[r.who]);
      assert Contents(t) == Contents(s);
    }
  }

  /** Under every interleaving the log is what it was plus the batches of the writers that succeeded, each
      whole, once, and in the order they succeeded: a writer told of a conflict added nothing, and no
      event of any other writer is lost. */
  lemma {:induction false} NoEventIsLost<E(!new)>(s: Log<E>, run: seq<Request<E>>)
    requires Initial(s) && Runs(s, run)
    ensures WritersOk(After(s, run)) && OrderOk(After(s, run)) && HoldsAll(Contents(s), After(s, run))
    decreases |run|
  {
    if run != [] {
      var before := After(s, run[..|run| - 1]);
      NoEventIsLost(s, run[..|run| - 1]);
      StepKeepsWriters(before, run[|run| - 1]);
      StepKeepsAll(Contents(s), before, run[|run| - 1]);
    }
  }

  /** The log only ever grows at its end. */
  lemma {:induction false} LogOnlyGrows<E(!new)>(s: Log<E>, run: seq<Request<E>>, n: nat)
    requires Initial(s) && Runs(s, run) && n <= |run|
    ensures Runs(s, run[..n]) && Contents(After(s, run[..n])) <= Contents(After(s, run))
    decreases |run|
  {
    if n == |run| {
      assert run[..n] == run;
    } else {
      var shorter := run[..|run| - 1];
      LogOnlyGrows(s, shorter, n);
      assert shorter[..n] == run[..n];
      var before, r := After(s, shorter), run[|run| - 1];
      NoEventIsLost(s, shorter);
      if r.Write? && !r.refused && Admits(before.file, before.writers[r.who].phase.seen) {
        WriteAppends(before, r.who, r.tag);
      }
      assert Contents(before) <= Contents(Step(before, r));
    }
  }
}
