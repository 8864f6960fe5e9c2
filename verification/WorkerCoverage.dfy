/** The worker and contradictions: a candidate that nothing contests leaves none,
    a contested one leaves none exactly when its processing completes. */
module WorkerCoverage {
  import opened Domain
  import opened Tables
  import opened Engines
  import opened IndexInvariant
  import opened Conflicts

  lemma DetectedExist(db: Db, c: Candidate)
    requires Keyed(db)
    ensures forall m :: m in Detect(db, c) ==> m.id in db.memories
  {
    if HasSpo(c) {
      var m := Memory(0, c.kind, c.scope, c.text, c.subj, c.pred, c.obj, 0.0, [], 0, 0, None, None);
      DetectIsContradiction(db, c, m);
    }
  }

  lemma CandidateKeepsGrounded(st: Engine, w: Minted)
    requires Grounded(st.db)
    ensures var db' := ProcessCandidate(st, w).state.db;
            Grounded(db') && Evolves(st.db, db') && (DisjointScopes(st.db.conflicts) ==> DisjointScopes(db'.conflicts))
  {
    var confidence := ComputeConfidence(w.candidate);
    var decision := Decide(w.candidate, confidence);
    if decision != Discard {
      var m := ToMemory(w, confidence, decision.SaveEpisode?);
      RememberGrounded(st, m, w.linked);
      var competing := Detect(st.db, w.candidate);
      if decision.Promote? && competing != [] {
        var o := RecordConflict(st, w, competing);
        RecordConflictFiles(st, w, competing);
        if o.Done? {
          var k := FiledSomewhere(st.db.conflicts, w, competing);
          DetectedExist(st.db, w.candidate);
          RememberTables(st, m, w.linked);
          FilingIsSound(st.db, o.state.db, k, w, competing);
        }
      }
    }
  }

  lemma RememberGrounded(st: Engine, m: Memory, linked: Option<seq<EntityId>>)
    requires Grounded(st.db)
    ensures var db' := Remember(st, m, linked).state.db;
            Grounded(db') && Evolves(st.db, db') && db'.conflicts == st.db.conflicts
  {
    RememberTables(st, m, linked);
    if InsertMemory(st.db, m).Some? {
      InsertKeepsGrounded(st.db, m);
      GroundedDependsOnTables(InsertMemory(st.db, m).value, Remember(st, m, linked).state.db);
    } else {
      GroundedDependsOnTables(st.db, Remember(st, m, linked).state.db);
    }
  }

  /** A contested candidate whose row is accepted leaves every contradiction
      covered exactly when its processing completes. */
  lemma ContestedOutcome(st: Engine, w: Minted)
    requires Grounded(st.db) && Covered(st.db)
    requires Decide(w.candidate, ComputeConfidence(w.candidate)) == Promote
    requires Detect(st.db, w.candidate) != []
    requires InsertMemory(st.db, ToMemory(w, ComputeConfidence(w.candidate), false)).Some?
    ensures Covered(ProcessCandidate(st, w).state.db) <==> ProcessCandidate(st, w).Done?
  {
    var c := w.candidate;
    var m := ToMemory(w, ComputeConfidence(c), false);
    var competing := Detect(st.db, c);
    DetectIsContradiction(st.db, c, m);
    RememberCoverage(st, m, w.linked);
    RecordConflictFiles(st, w, competing);
    var o := ProcessCandidate(st, w);
    if o.Done? {
      RememberTables(st, m, w.linked);
      var k := FiledSomewhere(st.db.conflicts, w, competing);
      FilingIsSound(st.db, o.state.db, k, w, competing);
      forall id | ActiveIn(st.db, id) && Contradict(st.db.memories[id], m)
        ensures st.db.memories[id] in competing && st.db.memories[id].id == id
      {}
      NewcomerCovered(st.db, o.state.db, m);
    }
  }

  /** A new memory contested with everything it contradicts leaves no gap. */
  lemma NewcomerCovered(db: Db, db': Db, m: Memory)
    requires Covered(db) && m.id !in db.memories && db'.memories == db.memories[m.id := m]
    requires forall a, b :: Contested(db.conflicts, a, b) ==> Contested(db'.conflicts, a, b)
    requires forall id :: ActiveIn(db, id) && Contradict(db.memories[id], m) ==>
                            Contested(db'.conflicts, id, m.id) && Contested(db'.conflicts, m.id, id)
    ensures Covered(db')
  {}

  lemma CandidateKeepsCovered(st: Engine, w: Minted)
    requires Grounded(st.db) && Covered(st.db) && ProcessCandidate(st, w).Done?
    ensures Covered(ProcessCandidate(st, w).state.db)
  {
    var c := w.candidate;
    var confidence := ComputeConfidence(c);
    match Decide(c, confidence)
    case Discard =>
    case SaveEpisode =>
      RememberCoverage(st, ToMemory(w, confidence, true), w.linked);
    case Promote =>
      var m := ToMemory(w, confidence, false);
      if Detect(st.db, c) == [] {
        RememberCoverage(st, m, w.linked);
        DetectIsContradiction(st.db, c, m);
      } else {
        RecordConflictFiles(st, w, Detect(st.db, c));
        ContestedOutcome(st, w);
      }
  }

  /** The detector objects to the candidate. */
  ghost predicate IsContested(st: Engine, w: Minted) {
    Decide(w.candidate, ComputeConfidence(w.candidate)) == Promote && Detect(st.db, w.candidate) != []
  }

  /** Its links succeed, the embedder takes its text and, if it is contested,
      there is a place to file it. */
  ghost predicate Processable(st: Engine, w: Minted) {
    && w.linked.Some? && st.embedder.embed(ComposeText(WorkerRow(w))).Some?
    && (IsContested(st, w) ==> Filable(st.db.conflicts, w))
  }

  /** When a candidate that is not discarded completes. */
  lemma CandidateCompletes(st: Engine, w: Minted, dimOf: string -> nat)
    requires Safe(st, dimOf) && UniqueConflictIds(st.db.conflicts)
    requires Decide(w.candidate, ComputeConfidence(w.candidate)) != Discard
    ensures ProcessCandidate(st, w).Done? <==> w.memoryId !in st.db.memories && Processable(st, w)
  {
    WorkerRowPassesCheck(st.db, w);
    RememberKeepsSafe(st, WorkerRow(w), w.linked, dimOf);
    if IsContested(st, w) {
      RecordConflictFiles(st, w, Detect(st.db, w.candidate));
    }
  }

  /** Its id is taken, nothing contests it, or it can be processed to its end. */
  ghost predicate CandidateSpares(st: Engine, w: Minted) {
    w.memoryId in st.db.memories || !IsContested(st, w) || Processable(st, w)
  }

  /** A candidate leaves every contradiction covered exactly when its id is taken,
      so that it is refused, nothing contests it, or its links succeed, the
      embedder takes its text and there is a place to file it. Otherwise the
      contradiction is absorbed. */
  lemma ContestedCandidateCoverage(st: Engine, w: Minted, dimOf: string -> nat)
    requires Safe(st, dimOf) && Grounded(st.db) && Covered(st.db)
    ensures Covered(ProcessCandidate(st, w).state.db) <==> CandidateSpares(st, w)
  {
    var decision := Decide(w.candidate, ComputeConfidence(w.candidate));
    if decision != Discard {
      WorkerRowPassesCheck(st.db, w);
      CandidateCompletes(st, w, dimOf);
      if w.memoryId !in st.db.memories && IsContested(st, w) {
        ContestedOutcome(st, w);
      } else {
        UncontestedCoverage(st, w);
      }
    }
  }

  /** Nothing is absorbed by a candidate that is refused or that nothing contests. */
  lemma UncontestedCoverage(st: Engine, w: Minted)
    requires Grounded(st.db) && Covered(st.db) && (w.memoryId in st.db.memories || !IsContested(st, w))
    ensures Covered(ProcessCandidate(st, w).state.db)
  {
    var decision := Decide(w.candidate, ComputeConfidence(w.candidate));
    if decision != Discard {
      WorkerRowPassesCheck(st.db, w);
      RememberCoverage(st, WorkerRow(w), w.linked);
      if w.memoryId !in st.db.memories && decision == Promote {
        DetectIsContradiction(st.db, w.candidate, WorkerRow(w));
      }
    }
  }

  /** Every candidate of the event that is reached spares the contradictions. */
  ghost predicate EventSpares(st: Engine, work: seq<Minted>)
    decreases |work|
  {
    work != [] ==>
      && CandidateSpares(st, work[0])
      && (ProcessCandidate(st, work[0]).Done? ==> EventSpares(ProcessCandidate(st, work[0]).state, work[1..]))
  }

  /** The same for an event, which ends at its first failure. */
  lemma {:induction false} EventCoverage(st: Engine, work: seq<Minted>, dimOf: string -> nat)
    requires Safe(st, dimOf) && Grounded(st.db) && Covered(st.db)
    ensures Covered(ProcessEvent(st, work).state.db) <==> EventSpares(st, work)
    decreases |work|
  {
    if work != [] {
      var o := ProcessCandidate(st, work[0]);
      ContestedCandidateCoverage(st, work[0], dimOf);
      if o.Done? {
        CandidateKeepsCovered(st, work[0]);
        CandidateKeepsGrounded(st, work[0]);
        CandidateKeepsSafe(st, work[0], dimOf);
        EventCoverage(o.state, work[1..], dimOf);
      }
    }
  }

  lemma {:induction false} EventKeepsGrounded(st: Engine, work: seq<Minted>)
    requires Grounded(st.db)
    ensures var o := ProcessEvent(st, work);
            && Grounded(o.state.db) && Evolves(st.db, o.state.db)
            && (DisjointScopes(st.db.conflicts) ==> DisjointScopes(o.state.db.conflicts))
            && (Covered(st.db) && o.Done? ==> Covered(o.state.db))
    decreases |work|
  {
    if work != [] {
      CandidateKeepsGrounded(st, work[0]);
      var o := ProcessCandidate(st, work[0]);
      if o.Done? {
        if Covered(st.db) {
          CandidateKeepsCovered(st, work[0]);
        }
        EventKeepsGrounded(o.state, work[1..]);
      }
    }
  }

  lemma {:induction false} DrainKeepsGrounded(st: Engine, events: seq<Event>, work: Event -> seq<Minted>)
    requires Grounded(st.db)
    ensures var db' := DrainEvents(st, events, work).db;
            && Grounded(db') && Evolves(st.db, db')
            && (DisjointScopes(st.db.conflicts) ==> DisjointScopes(db'.conflicts))
            && (Covered(st.db) && EventsComplete(st, events, work) ==> Covered(db'))
    decreases |events|
  {
    if events != [] {
      EventKeepsGrounded(st, work(events[0]));
      var next := DrainEvent(st, events[0], work(events[0]));
      GroundedDependsOnTables(ProcessEvent(st, work(events[0])).state.db, next.db);
      DrainKeepsGrounded(next, events[1..], work);
    }
  }

  // ---- Processing an event again --------------------------------------------

  /** What a candidate does to the memories: nothing when it is discarded or its
      id is taken, and otherwise one row, whether or not it completes. */
  lemma CandidateMemories(st: Engine, w: Minted)
    ensures var memories' := ProcessCandidate(st, w).state.db.memories;
            && (memories' == st.db.memories <==>
                Decide(w.candidate, ComputeConfidence(w.candidate)) == Discard || w.memoryId in st.db.memories)
            && (memories' != st.db.memories ==> memories' == st.db.memories[w.memoryId := WorkerRow(w)])
  {
    var decision := Decide(w.candidate, ComputeConfidence(w.candidate));
    if decision != Discard {
      WorkerRowPassesCheck(st.db, w);
      RememberTables(st, WorkerRow(w), w.linked);
      RecordConflictTables(st, w, Detect(st.db, w.candidate));
      assert w.memoryId in st.db.memories[w.memoryId := WorkerRow(w)];
    }
  }

  predicate Replays(w: Minted, again: Minted) {
    again.candidate == w.candidate && again.memoryId != w.memoryId
  }

  /** Reprocessing is harmless exactly for a discarded candidate. Any other one,
      contested or not, is stored twice under the fresh id it gets. */
  lemma ReplayStoresTwice(st: Engine, w: Minted, again: Minted)
    requires Replays(w, again) && w.memoryId !in st.db.memories && again.memoryId !in st.db.memories
    ensures var once := ProcessCandidate(st, w).state;
            var twice := ProcessCandidate(once, again).state;
            && (twice.db.memories == once.db.memories <==>
                Decide(w.candidate, ComputeConfidence(w.candidate)) == Discard)
            && (Decide(w.candidate, ComputeConfidence(w.candidate)) != Discard ==>
                  && twice.db.memories == st.db.memories[w.memoryId := WorkerRow(w)][again.memoryId := WorkerRow(again)]
                  && Restates(WorkerRow(w), WorkerRow(again)))
  {
    CandidateMemories(st, w);
    CandidateMemories(ProcessCandidate(st, w).state, again);
  }

  /** ... and indexed twice, when its links and its embedding succeed. */
  lemma ReplayIndexesTwice(st: Engine, w: Minted, again: Minted, dimOf: string -> nat)
    requires Safe(st, dimOf) && Replays(w, again)
    requires w.memoryId !in st.db.memories && again.memoryId !in st.db.memories
    requires Decide(w.candidate, ComputeConfidence(w.candidate)) != Discard
    requires w.linked.Some? && again.linked.Some? && st.embedder.embed(ComposeText(WorkerRow(w))).Some?
    ensures var twice := ProcessCandidate(ProcessCandidate(st, w).state, again).state;
            Indexed(twice, w.memoryId) && Indexed(twice, again.memoryId)
  {
    var once := ProcessCandidate(st, w).state;
    StoredIsIndexed(st, w, dimOf);
    CandidateKeepsSafe(st, w, dimOf);
    CandidateMemories(st, w);
    assert ComposeText(WorkerRow(again)) == ComposeText(WorkerRow(w));
    StoredIsIndexed(once, again, dimOf);
  }

  lemma StoredIsIndexed(st: Engine, w: Minted, dimOf: string -> nat)
    requires Safe(st, dimOf) && w.memoryId !in st.db.memories
    requires Decide(w.candidate, ComputeConfidence(w.candidate)) != Discard
    requires w.linked.Some? && st.embedder.embed(ComposeText(WorkerRow(w))).Some?
    ensures Indexed(ProcessCandidate(st, w).state, w.memoryId)
    ensures forall id :: Indexed(st, id) ==> Indexed(ProcessCandidate(st, w).state, id)
  {
    WorkerRowPassesCheck(st.db, w);
    RememberKeepsSafe(st, WorkerRow(w), w.linked, dimOf);
    RecordConflictTables(st, w, Detect(st.db, w.candidate));
    NotStoredNotIndexed(st, w.memoryId, dimOf);
  }

  /** Fresh ids, as every processing of an event mints them. */
  ghost predicate FreshWork(db: Db, work: seq<Minted>) {
    && (forall i :: 0 <= i < |work| ==> work[i].memoryId !in db.memories)
    && (forall i, j :: 0 <= i < j < |work| ==> work[i].memoryId != work[j].memoryId)
  }

  lemma {:induction false} EventOnlyAdds(st: Engine, work: seq<Minted>)
    ensures forall id :: id in st.db.memories ==> id in ProcessEvent(st, work).state.db.memories
    decreases |work|
  {
    if work != [] {
      CandidateMemories(st, work[0]);
      if ProcessCandidate(st, work[0]).Done? {
        EventOnlyAdds(ProcessCandidate(st, work[0]).state, work[1..]);
      }
    }
  }

  /** Processing an event, for the first time or again, leaves the memories as
      they are exactly when every candidate of it is discarded. */
  lemma {:induction false} EventIsHarmless(st: Engine, work: seq<Minted>)
    requires FreshWork(st.db, work)
    ensures ProcessEvent(st, work).state.db.memories == st.db.memories <==>
            forall i :: 0 <= i < |work| ==> Decide(work[i].candidate, ComputeConfidence(work[i].candidate)) == Discard
    decreases |work|
  {
    if work != [] {
      var o := ProcessCandidate(st, work[0]);
      CandidateMemories(st, work[0]);
      if Decide(work[0].candidate, ComputeConfidence(work[0].candidate)) == Discard {
        assert o == Done(st);
        assert forall i :: 0 <= i < |work[1..]| ==> work[1..][i] == work[i + 1];
        EventIsHarmless(st, work[1..]);
        assert forall i :: 0 < i < |work| ==> work[i] == work[1..][i - 1];
      } else {
        assert work[0].memoryId in o.state.db.memories;
        if o.Done? {
          EventOnlyAdds(o.state, work[1..]);
        }
      }
    }
  }
}
