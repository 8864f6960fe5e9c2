/** What the worker leaves behind, field by field: one candidate, one event, one
    batch. */
module WorkerEffects {
  import opened Domain
  import opened Tables
  import opened Engines
  import opened IndexInvariant
  import opened Conflicts
  import opened WorkerCoverage
  import opened OperationEffects
  import Checkpoint
  import Runtimes

  /** What the extractor gave, within zero and one, or else what the provenance
      stands for. */
  predicate Weighs(c: Candidate, x: real) {
    match c.confidence
    case Some(given) => Nearest(given, x)
    case None =>
      match c.provenance
      case Manual => x == 0.95
      case ExplicitUser => x == 0.92
      case AgentConfirmed => x == 0.85
      case RepeatedPattern => x == 0.75
      case AgentInferred => x == 0.55
      case ToolOutput => x == 0.5
  }

  /** A whole fact, not an episode, that weighs enough to be stored as one. */
  predicate KeptAsFact(c: Candidate, x: real) {
    c.kind != Episode && c.subj.Some? && c.pred.Some? && c.obj.Some? && x >= 0.7
  }

  /** The row of a candidate that is not discarded: its own text, scope and
      sources, and either its whole fact or an episode without one. */
  predicate RowOf(w: Minted, x: real, m: Memory) {
    var c := w.candidate;
    && m.id == w.memoryId && m.text == c.text && m.scope == c.scope && m.sources == c.sources
    && m.confidence == x && m.createdAt == w.now && m.updatedAt == w.now
    && m.supersededBy == None && m.deletedAt == None
    && (if KeptAsFact(c, x) then m.kind == c.kind && m.subj == c.subj && m.pred == c.pred && m.obj == c.obj
        else m.kind == Episode && m.subj == None && m.pred == None && m.obj == None)
  }

  lemma WorkerRowIsRow(w: Minted, x: real)
    requires Weighs(w.candidate, x)
    ensures ComputeConfidence(w.candidate) == x
    ensures Decide(w.candidate, x) == Discard <==> x < 0.4
    ensures x >= 0.4 ==> RowOf(w, x, WorkerRow(w))
  {}

  /** A candidate lighter than 0.4 changes nothing. A heavier one is refused for a
      taken id, and otherwise stores its row, whatever happens after that, and
      touches no other memory. */
  lemma CandidateEffect(st: Engine, w: Minted, x: real)
    requires Weighs(w.candidate, x)
    ensures var o := ProcessCandidate(st, w);
            if x < 0.4 then o == Done(st)
            else if w.memoryId in st.db.memories then o == Failed(st, ConstraintViolation)
            else
              && w.memoryId in o.state.db.memories && RowOf(w, x, o.state.db.memories[w.memoryId])
              && o.state.db.memories == st.db.memories[w.memoryId := o.state.db.memories[w.memoryId]]
              && o.state.db.order == st.db.order + [w.memoryId]
              && o.state.db.links
                 == st.db.links + (if w.linked.None? then {} else set e | e in w.linked.value :: (w.memoryId, e))
              && o.state.db.events == st.db.events && o.state.db.checkpoint == st.db.checkpoint
              && o.state.db.failures == st.db.failures
  {
    WorkerRowIsRow(w, x);
    if x >= 0.4 {
      WorkerRowPassesCheck(st.db, w);
      RememberTables(st, WorkerRow(w), w.linked);
      RecordConflictTables(st, w, Detect(st.db, w.candidate));
      if w.memoryId in st.db.memories {
        assert Remember(st, WorkerRow(w), w.linked) == Failed(st, ConstraintViolation);
      } else {
        RememberAddsLinks(st, WorkerRow(w), w.linked);
      }
    }
  }

  lemma RememberAddsLinks(st: Engine, m: Memory, linked: Option<seq<EntityId>>)
    requires InsertMemory(st.db, m).Some?
    ensures Remember(st, m, linked).state.db.links
            == st.db.links + (if linked.None? then {} else set e | e in linked.value :: (m.id, e))
  {}

  /** A candidate that is stored is embedded and indexed when its links and its
      embedding succeed, and otherwise fails with neither. */
  lemma CandidateIsEmbedded(st: Engine, w: Minted, x: real, sentence: string, dimOf: string -> nat)
    requires Safe(st, dimOf) && Weighs(w.candidate, x) && x >= 0.4 && w.memoryId !in st.db.memories
    requires var c := w.candidate;
             sentence == if KeptAsFact(c, x)
                         then c.text + " \n " + c.subj.value + " " + c.pred.value + " " + c.obj.value
                         else c.text
    ensures var st' := ProcessCandidate(st, w).state;
            var vector := st.embedder.embed(sentence);
            && w.memoryId in st'.db.memories
            && if w.linked.Some? && vector.Some? then Embedded(st, st', st'.db.memories[w.memoryId], vector.value)
            else st'.db.rows == st.db.rows && st'.index == st.index && ProcessCandidate(st, w).Failed?
  {
    var m := WorkerRow(w);
    WorkerRowIsRow(w, x);
    WorkerRowPassesCheck(st.db, w);
    AddEffect(st, m, w.linked, sentence, dimOf);
    RecordConflictTables(st, w, Detect(st.db, w.candidate));
  }

  // ---- Contested candidates -------------------------------------------------

  /** The memory says something else about the candidate's subject and predicate
      in a scope they share. */
  predicate Objects(m: Memory, c: Candidate) {
    && m.supersededBy == None && m.deletedAt == None
    && m.subj == c.subj && m.pred == c.pred && m.obj != c.obj && exists s :: s in m.scope && s in c.scope
  }

  /** The conflict is open, on the candidate's subject and predicate, and has a
      scope in common with it. */
  predicate OpenOn(conflict: Conflict, c: Candidate) {
    && conflict.resolution == Unresolved && conflict.subj == c.subj && conflict.pred == c.pred
    && exists s :: s in conflict.scope && s in c.scope
  }

  /** The k-th conflict now names the candidate and everything that objects to it:
      the oldest open one on its topic, else a new one. */
  ghost predicate FiledUnder(db: Db, db': Db, w: Minted, k: nat) {
    && k < |db'.conflicts| && k <= |db.conflicts| <= |db'.conflicts|
    && (forall i :: 0 <= i < |db.conflicts| && i != k ==> db'.conflicts[i] == db.conflicts[i])
    && (forall i :: 0 <= i < k ==> !OpenOn(db.conflicts[i], w.candidate))
    && (if k < |db.conflicts| then
          && |db'.conflicts| == |db.conflicts| && OpenOn(db.conflicts[k], w.candidate)
          && db'.conflicts[k] == db.conflicts[k].(members := db'.conflicts[k].members)
          && db.conflicts[k].members <= db'.conflicts[k].members
          && (forall id :: id in db'.conflicts[k].members <==>
                id in db.conflicts[k].members || id == w.memoryId
                || (id in db.memories && Objects(db.memories[id], w.candidate)))
        else
          && |db'.conflicts| == k + 1
          && db'.conflicts[k] == Conflict(w.conflictId, w.candidate.scope, w.candidate.subj, w.candidate.pred,
                                          db'.conflicts[k].members, Unresolved, w.now, None)
          && (forall id :: id in db'.conflicts[k].members <==>
                id == w.memoryId || (id in db.memories && Objects(db.memories[id], w.candidate))))
  }

  lemma DetectedObject(db: Db, c: Candidate)
    requires Keyed(db) && HasSpo(c)
    ensures forall x :: x in Detect(db, c) <==> x.id in db.memories && db.memories[x.id] == x && Objects(x, c)
  {
    var m := Memory(0, c.kind, c.scope, c.text, c.subj, c.pred, c.obj, 0.0, [], 0, 0, None, None);
    DetectIsContradiction(db, c, m);
    forall x
      ensures Contradict(x, m) && Active(x) <==> Objects(x, c)
    {
      assert Intersects(x.scope, m.scope) <==> exists s :: s in x.scope && s in c.scope;
    }
  }

  /** A candidate stored as a fact and processed to its end files a conflict
      exactly when some stored memory objects to it; every other candidate leaves
      the conflicts as they are. */
  lemma ContestEffect(st: Engine, w: Minted, x: real)
    requires Grounded(st.db) && Weighs(w.candidate, x)
    ensures var o := ProcessCandidate(st, w);
            if o.Done? && KeptAsFact(w.candidate, x)
               && exists id :: id in st.db.memories && Objects(st.db.memories[id], w.candidate)
            then exists k :: FiledUnder(st.db, o.state.db, w, k)
            else o.state.db.conflicts == st.db.conflicts
  {
    WorkerRowIsRow(w, x);
    if KeptAsFact(w.candidate, x) {
      DetectedObject(st.db, w.candidate);
      var competing := Detect(st.db, w.candidate);
      assert (exists id :: id in st.db.memories && Objects(st.db.memories[id], w.candidate)) <==> competing != [] by {
        assert competing != [] ==> competing[0] in competing;
        forall id | id in st.db.memories && Objects(st.db.memories[id], w.candidate)
          ensures st.db.memories[id] in competing
        {}
      }
      RememberTables(st, WorkerRow(w), w.linked);
      if competing != [] {
        RecordConflictFiles(st, w, competing);
        if ProcessCandidate(st, w).Done? {
          FiledIsFiledUnder(st, w, competing);
        }
      }
    } else if x >= 0.4 {
      RememberTables(st, WorkerRow(w), w.linked);
    }
  }

  lemma FiledIsFiledUnder(st: Engine, w: Minted, competing: seq<Memory>)
    requires Grounded(st.db) && HasSpo(w.candidate) && competing == Detect(st.db, w.candidate)
    requires forall x :: x in competing <==>
               x.id in st.db.memories && st.db.memories[x.id] == x && Objects(x, w.candidate)
    requires ProcessCandidate(st, w).state.db.conflicts == Filed(st.db.conflicts, w, competing)
    ensures exists k :: FiledUnder(st.db, ProcessCandidate(st, w).state.db, w, k)
  {
    var k := FiledSomewhere(st.db.conflicts, w, competing);
    var c := w.candidate;
    var db, db' := st.db, ProcessCandidate(st, w).state.db;
    forall i | 0 <= i < |db.conflicts|
      ensures OpenOn(db.conflicts[i], c) <==> Dedups(db.conflicts[i], c.scope, c.subj.value, c.pred.value)
    {}
    FiledCreated(db.conflicts, w, competing);
    forall id | id in db.memories
      ensures Objects(db.memories[id], c) <==> db.memories[id] in competing
    {}
    assert FiledUnder(db, db', w, k);
  }

  /** The conflict a candidate is filed under, exactly. */
  lemma FiledCreated(conflicts: seq<Conflict>, w: Minted, competing: seq<Memory>)
    requires HasSpo(w.candidate)
    ensures var c := w.candidate;
            var found := FindUnresolved(conflicts, c.scope, c.subj.value, c.pred.value);
            var after := Filed(conflicts, w, competing);
            if found.Some? then
              forall id :: id in after[found.value].members <==>
                id in conflicts[found.value].members || id == w.memoryId || exists m :: m in competing && m.id == id
            else
              && after == conflicts + [NewConflict(w, competing)]
              && forall id :: id in after[|conflicts|].members <==>
                   id == w.memoryId || exists m :: m in competing && m.id == id
  {
    var c := w.candidate;
    IdsElements(competing);
    var found := FindUnresolved(conflicts, c.scope, c.subj.value, c.pred.value);
    if found.Some? {
      ExtendedElements(conflicts[found.value].members, Ids(competing) + [w.memoryId]);
    }
  }

  // ---- An event -------------------------------------------------------------

  ghost predicate StoredRow(db: Db, w: Minted) {
    forall x :: Weighs(w.candidate, x) && x >= 0.4 ==>
      w.memoryId in db.memories && RowOf(w, x, db.memories[w.memoryId])
  }

  lemma {:induction false} EventKeepsRows(st: Engine, work: seq<Minted>)
    ensures var db' := ProcessEvent(st, work).state.db;
            forall id :: id in st.db.memories ==> id in db'.memories && db'.memories[id] == st.db.memories[id]
    decreases |work|
  {
    if work != [] {
      CandidateMemories(st, work[0]);
      if ProcessCandidate(st, work[0]).Done? {
        EventKeepsRows(ProcessCandidate(st, work[0]).state, work[1..]);
      }
    }
  }

  lemma WeightExists(c: Candidate) returns (x: real)
    ensures Weighs(c, x)
    ensures forall y :: Weighs(c, y) ==> y == x
  {
    x := ComputeConfidence(c);
  }

  /** An event processed to its end has stored the row of every candidate that is
      not discarded, and no others. */
  lemma {:induction false} EventEffect(st: Engine, work: seq<Minted>)
    requires ProcessEvent(st, work).Done?
    ensures var db' := ProcessEvent(st, work).state.db;
            && (forall i :: 0 <= i < |work| ==> StoredRow(db', work[i]))
            && (forall id :: id in db'.memories ==>
                  id in st.db.memories || exists i :: 0 <= i < |work| && work[i].memoryId == id)
    decreases |work|
  {
    if work != [] {
      var x := WeightExists(work[0].candidate);
      var next := ProcessCandidate(st, work[0]).state;
      var db' := ProcessEvent(st, work).state.db;
      CandidateEffect(st, work[0], x);
      EventKeepsRows(next, work[1..]);
      EventEffect(next, work[1..]);
      forall i | 0 <= i < |work|
        ensures StoredRow(db', work[i])
      {
        if i > 0 {
          assert work[1..][i - 1] == work[i];
        }
      }
      forall id | id in db'.memories && id !in st.db.memories
        ensures exists i :: 0 <= i < |work| && work[i].memoryId == id
      {
        if id in next.db.memories {
          assert work[0].memoryId == id;
        } else {
          var i :| 0 <= i < |work[1..]| && work[1..][i].memoryId == id;
          assert work[i + 1].memoryId == id;
        }
      }
    }
  }

  lemma {:induction false} EventKeepsFailures(st: Engine, work: seq<Minted>)
    ensures ProcessEvent(st, work).state.db.failures == st.db.failures
    decreases |work|
  {
    if work != [] {
      var x := WeightExists(work[0].candidate);
      CandidateEffect(st, work[0], x);
      if ProcessCandidate(st, work[0]).Done? {
        EventKeepsFailures(ProcessCandidate(st, work[0]).state, work[1..]);
      }
    }
  }

  // ---- A batch --------------------------------------------------------------

  /** Draining one event moves the checkpoint to it whether or not it succeeds,
      and notes exactly a failure, under the event's id and with its error; what
      its candidates stored stays. */
  lemma DrainEventEffect(st: Engine, e: Event, work: seq<Minted>)
    ensures var o := ProcessEvent(st, work);
            var st' := DrainEvent(st, e, work);
            && st' == o.state.(db := o.state.db.(failures := st'.db.failures, checkpoint := Some(e.key)))
            && (if o.Done? then st'.db.failures == st.db.failures
                else st'.db.failures == st.db.failures + [Failure(e.key.id, o.error)])
            && st'.db.events == st.db.events
  {
    EventKeepsFailures(st, work);
    Runtimes.EventKeepsLog(st, work);
  }

  /** Events are drained one after another. */
  lemma {:induction false} DrainInTurn(st: Engine, a: seq<Event>, b: seq<Event>, work: Event -> seq<Minted>)
    ensures DrainEvents(st, a + b, work) == DrainEvents(DrainEvents(st, a, work), b, work)
    ensures |a| == 1 ==> DrainEvents(st, a, work) == DrainEvent(st, a[0], work(a[0]))
    decreases |a|
  {
    if a == [] {
      assert a + b == b;
    } else {
      assert (a + b)[0] == a[0] && (a + b)[1..] == a[1..] + b;
      DrainInTurn(DrainEvent(st, a[0], work(a[0])), a[1..], b, work);
    }
  }

  /** A drain takes the next events of the log, 64 at most. */
  lemma DrainTakesNext(st: Engine, p: nat, work: Event -> seq<Minted>)
    requires Checkpoint.Increasing(st.db.events) && p <= |st.db.events|
    requires st.db.checkpoint == if p == 0 then None else Some(st.db.events[p - 1].key)
    ensures var log := st.db.events;
            Drain(st, work) == DrainEvents(st, if p + 64 <= |log| then log[p..p + 64] else log[p..], work)
  {
    Checkpoint.EventsAfterIsSlice(st.db.events, p, 64);
  }
}
