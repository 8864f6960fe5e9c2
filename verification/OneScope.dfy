/** Memories that carry one scope each: over every run each lies in at most one
    unresolved conflict, members of unresolved conflicts are not superseded, and
    superseded_by stays a forest. */
module OneScope {
  import opened Domain
  import opened Tables
  import opened Engines
  import opened IndexInvariant
  import opened Conflicts
  import opened WorkerCoverage
  import opened ResolutionCoverage
  import opened Supersession
  import opened StepCoverage
  import opened Coverage

  /** Every stored memory carries one scope. */
  ghost predicate OneScopes(db: Db) {
    forall id :: id in db.memories ==> |db.memories[id].scope| == 1
  }

  /** Scopes never change and rows are never dropped, so what holds at the end
      held all along. */
  lemma OneScopesBefore(db: Db, db': Db)
    requires Evolves(db, db') && OneScopes(db')
    ensures OneScopes(db)
  {
    forall id | id in db.memories
      ensures |db.memories[id].scope| == 1
    {
      assert SameFact(db.memories[id], db'.memories[id]);
    }
  }

  lemma OneScopeMeets(a: Scope, b: Scope)
    requires |a| == 1 && |b| == 1
    ensures Intersects(a, b) <==> a == b
  {
    assert a[0] in a;
    if a == b {
      assert a[0] in b;
    }
  }

  ghost predicate MemberFits(db: Db, c: Conflict, id: MemoryId) {
    && id in db.memories
    && db.memories[id].scope == c.scope
    && db.memories[id].subj == c.subj && db.memories[id].pred == c.pred
    && db.memories[id].supersededBy.None?
  }

  ghost predicate Tidy(db: Db) {
    && Grounded(db) && DisjointScopes(db.conflicts)
    && OneScopes(db)
    && (forall i :: 0 <= i < |db.conflicts| ==>
          |db.conflicts[i].scope| == 1 && db.conflicts[i].subj.Some? && db.conflicts[i].pred.Some?)
    && (forall i, id ::
          0 <= i < |db.conflicts| && db.conflicts[i].resolution == Unresolved && id in db.conflicts[i].members ==>
            MemberFits(db, db.conflicts[i], id))
  }

  /** A memory lies in at most one unresolved conflict. */
  lemma OneConflictEach(db: Db, i: nat, j: nat, id: MemoryId)
    requires Tidy(db) && i < |db.conflicts| && j < |db.conflicts|
    requires db.conflicts[i].resolution == Unresolved && db.conflicts[j].resolution == Unresolved
    requires id in db.conflicts[i].members && id in db.conflicts[j].members
    ensures i == j
  {
    var a, b := db.conflicts[i], db.conflicts[j];
    assert MemberFits(db, a, id) && MemberFits(db, b, id);
    OneScopeMeets(a.scope, b.scope);
    assert SameTopic(a, b) && SameTopic(b, a);
    assert a.scope[0] in a.scope && a.scope[0] in b.scope;
  }

  lemma RememberKeepsTidy(st: Engine, m: Memory, linked: Option<seq<EntityId>>)
    requires Tidy(st.db) && (InsertMemory(st.db, m).Some? ==> |m.scope| == 1)
    ensures Tidy(Remember(st, m, linked).state.db)
  {
    RememberTables(st, m, linked);
    RememberGrounded(st, m, linked);
  }

  /** Filing a one-scope candidate keeps every member on its conflict's topic. */
  lemma FilingKeepsTidy(db: Db, db': Db, k: nat, w: Minted, m: Memory, competing: seq<Memory>)
    requires Tidy(db) && m.id == w.memoryId && m.id !in db.memories && Active(m)
    requires db'.memories == db.memories[m.id := m] && Grounded(db') && DisjointScopes(db'.conflicts)
    requires HasSpo(w.candidate) && m.scope == w.candidate.scope && |m.scope| == 1
    requires m.subj == w.candidate.subj && m.pred == w.candidate.pred
    requires FiledAt(db.conflicts, db'.conflicts, k, w, competing)
    requires forall x :: x in competing ==> ActiveIn(db, x.id) && db.memories[x.id] == x && Contradict(x, m)
    ensures Tidy(db')
  {
    if k < |db.conflicts| {
      OneScopeMeets(w.candidate.scope, db.conflicts[k].scope);
    }
    assert db'.conflicts[k].scope == m.scope;
    forall i, id | 0 <= i < |db'.conflicts| && db'.conflicts[i].resolution == Unresolved
                   && id in db'.conflicts[i].members
      ensures MemberFits(db', db'.conflicts[i], id)
    {
      if i != k || (k < |db.conflicts| && id in db.conflicts[k].members) {
        assert MemberFits(db, db.conflicts[i], id);
      } else if id != m.id {
        var x :| x in competing && x.id == id;
        OneScopeMeets(x.scope, m.scope);
      }
    }
  }

  /** A candidate that is stored brings its scope with it. */
  lemma StoredScope(st: Engine, w: Minted)
    requires OneScopes(ProcessCandidate(st, w).state.db)
    requires Decide(w.candidate, ComputeConfidence(w.candidate)) != Discard
    ensures w.memoryId !in st.db.memories ==> |w.candidate.scope| == 1
  {
    CandidateMemories(st, w);
    var memories' := ProcessCandidate(st, w).state.db.memories;
    if w.memoryId !in st.db.memories {
      assert w.memoryId in memories' && memories'[w.memoryId] == WorkerRow(w);
    }
  }

  lemma CandidateKeepsTidy(st: Engine, w: Minted)
    requires Tidy(st.db) && OneScopes(ProcessCandidate(st, w).state.db)
    ensures Tidy(ProcessCandidate(st, w).state.db)
  {
    var c := w.candidate;
    var confidence := ComputeConfidence(c);
    var decision := Decide(c, confidence);
    if decision != Discard {
      var m := ToMemory(w, confidence, decision.SaveEpisode?);
      StoredScope(st, w);
      RememberKeepsTidy(st, m, w.linked);
      var competing := Detect(st.db, c);
      if decision.Promote? && competing != [] {
        var o := RecordConflict(st, w, competing);
        RecordConflictFiles(st, w, competing);
        if o.Done? {
          RememberTables(st, m, w.linked);
          CandidateKeepsGrounded(st, w);
          DetectIsContradiction(st.db, c, m);
          var k := FiledSomewhere(st.db.conflicts, w, competing);
          FilingKeepsTidy(st.db, o.state.db, k, w, m, competing);
        }
      }
    }
  }

  lemma {:induction false} EventKeepsTidy(st: Engine, work: seq<Minted>)
    requires Tidy(st.db) && OneScopes(ProcessEvent(st, work).state.db)
    ensures Tidy(ProcessEvent(st, work).state.db)
    decreases |work|
  {
    if work != [] {
      var o := ProcessCandidate(st, work[0]);
      if o.Done? {
        CandidateKeepsGrounded(st, work[0]);
        EventKeepsGrounded(o.state, work[1..]);
        OneScopesBefore(o.state.db, ProcessEvent(o.state, work[1..]).state.db);
      }
      CandidateKeepsTidy(st, work[0]);
      if o.Done? {
        EventKeepsTidy(o.state, work[1..]);
      }
    }
  }

  lemma DrainEventKeepsGrounded(st: Engine, e: Event, work: seq<Minted>)
    requires Grounded(st.db)
    ensures Grounded(DrainEvent(st, e, work).db)
  {
    EventKeepsGrounded(st, work);
    GroundedDependsOnTables(ProcessEvent(st, work).state.db, DrainEvent(st, e, work).db);
  }

  lemma DrainEventKeepsTidy(st: Engine, e: Event, work: seq<Minted>)
    requires Tidy(st.db) && OneScopes(DrainEvent(st, e, work).db)
    ensures Tidy(DrainEvent(st, e, work).db)
  {
    EventKeepsTidy(st, work);
    DrainEventKeepsGrounded(st, e, work);
  }

  lemma {:induction false} DrainKeepsTidy(st: Engine, events: seq<Event>, work: Event -> seq<Minted>)
    requires Tidy(st.db) && OneScopes(DrainEvents(st, events, work).db)
    ensures Tidy(DrainEvents(st, events, work).db)
    decreases |events|
  {
    if events != [] {
      var next := DrainEvent(st, events[0], work(events[0]));
      DrainEventKeepsGrounded(st, events[0], work(events[0]));
      DrainKeepsGrounded(next, events[1..], work);
      OneScopesBefore(next.db, DrainEvents(next, events[1..], work).db);
      DrainEventKeepsTidy(st, events[0], work(events[0]));
      DrainKeepsTidy(next, events[1..], work);
    }
  }

  /** Closing one conflict after its members were retired. */
  lemma ClosingKeepsTidy(db: Db, db': Db, k: nat)
    requires Tidy(db) && Grounded(db') && DisjointScopes(db'.conflicts)
    requires k < |db.conflicts| && |db'.conflicts| == |db.conflicts| && db.conflicts[k].resolution == Unresolved
    requires db'.conflicts[k].resolution != Unresolved && db'.conflicts[k].scope == db.conflicts[k].scope
    requires db'.conflicts[k].subj == db.conflicts[k].subj && db'.conflicts[k].pred == db.conflicts[k].pred
    requires forall i :: 0 <= i < |db.conflicts| && i != k ==> db'.conflicts[i] == db.conflicts[i]
    requires Evolves(db, db')
    requires forall id :: id in db'.memories && id !in db.memories ==> |db'.memories[id].scope| == 1
    requires forall id :: id in db.memories && id !in db.conflicts[k].members ==> db'.memories[id] == db.memories[id]
    ensures Tidy(db')
  {
    forall i, id | 0 <= i < |db'.conflicts| && db'.conflicts[i].resolution == Unresolved
                   && id in db'.conflicts[i].members
      ensures MemberFits(db', db'.conflicts[i], id)
    {
      assert i != k && MemberFits(db, db.conflicts[i], id);
      if id in db.conflicts[k].members {
        OneConflictEach(db, i, k, id);
      }
    }
  }

  /** Retiring a conflict's members and closing it. */
  lemma RetiringKeepsTidy(st: Engine, k: nat, verdict: Verdict, resolution: Resolution, now: int)
    requires Tidy(st.db) && k < |st.db.conflicts| && st.db.conflicts[k].resolution == Unresolved
    requires resolution != Unresolved
    ensures var c := st.db.conflicts[k];
            Tidy(Close(RetireAll(st, c.members, verdict, now), c.id, resolution, now).state.db)
  {
    var c := st.db.conflicts[k];
    var o := RetireAll(st, c.members, verdict, now);
    RetireAllShrinks(st, c.members, verdict, now);
    RetireAllSpares(st, c.members, verdict, now);
    ShrinkingKeepsCovered(st.db, o.state.db);
    MarkResolvedKeepsGrounded(o, c.id, resolution, now);
    assert forall id :: id in c.members ==> id in st.db.memories;
    ClosingKeepsTidy(st.db, Close(o, c.id, resolution, now).state.db, k);
  }

  lemma ResolveKeepsTidy(st: Engine, conflict: ConflictId, action: Action, now: int)
    requires Tidy(st.db)
    ensures Tidy(ResolveConflict(st, conflict, action, now).state.db)
  {
    var found := FindConflict(st.db.conflicts, conflict);
    if found.Some? && st.db.conflicts[found.value].resolution == Unresolved {
      var k := found.value;
      match action
      case Pick(winner) => RetiringKeepsTidy(st, k, LosesTo(winner), Picked, now);
      case RejectAll => RetiringKeepsTidy(st, k, Rejected, RejectedAll, now);
      case Merge(_, _, _, _, _, mergedId, linked) =>
        var m := MergedMemory(st.db, st.db.conflicts[k], action, now);
        RememberKeepsTidy(st, m, linked);
        RememberTables(st, m, linked);
        RetiringKeepsTidy(Remember(st, m, linked).state, k, MergedInto(mergedId), Merged, now);
    }
  }

  /** Operations that touch neither conflicts nor superseded_by. */
  lemma ShrinkingKeepsTidy(db: Db, db': Db)
    requires Tidy(db) && Shrinks(db, db')
    requires forall id :: id in db.memories ==> db'.memories[id].supersededBy == db.memories[id].supersededBy
    ensures Tidy(db')
  {
    ShrinkingKeepsCovered(db, db');
  }

  lemma AddKeepsTidy(st: Engine, m: Memory, linked: Option<seq<EntityId>>)
    requires Tidy(st.db) && OneScopes(Remember(st, m, linked).state.db)
    ensures Tidy(Remember(st, m, linked).state.db)
  {
    RememberTables(st, m, linked);
    assert InsertMemory(st.db, m).Some? ==> m.id in Remember(st, m, linked).state.db.memories;
    RememberKeepsTidy(st, m, linked);
  }

  lemma ForgetKeepsTidy(st: Engine, id: MemoryId, now: int)
    requires Tidy(st.db)
    ensures Tidy(ForgetMemory(st, id, now).state.db)
  {
    ForgetShrinks(st, id, now);
    ShrinkingKeepsTidy(st.db, ForgetMemory(st, id, now).state.db);
  }

  lemma FeedbackKeepsTidy(st: Engine, id: MemoryId, kind: Feedback, now: int)
    requires Tidy(st.db)
    ensures Tidy(RecordFeedback(st, id, kind, now).state.db)
  {
    FeedbackShrinks(st, id, kind, now);
    ShrinkingKeepsTidy(st.db, RecordFeedback(st, id, kind, now).state.db);
  }

  lemma RebuildKeepsTidy(st: Engine)
    requires Tidy(st.db)
    ensures Tidy(Rebuild(st).state.db)
  {
    RebuildShrinks(st);
    ShrinkingKeepsTidy(st.db, Rebuild(st).state.db);
  }

  lemma StepKeepsTidy(st: Engine, op: Op)
    requires Tidy(st.db) && OneScopes(Step(st, op).db)
    ensures Tidy(Step(st, op).db)
  {
    match op
    case OpDrain(work) => DrainKeepsTidy(st, EventsAfter(st.db.events, st.db.checkpoint, BATCH_SIZE), work);
    case OpAdd(memory, linked) => AddKeepsTidy(st, memory, linked);
    case OpResolve(conflict, action, now) => ResolveKeepsTidy(st, conflict, action, now);
    case OpAppend(event) => ShrinkingKeepsTidy(st.db, InsertEvent(st.db, event));
    case OpForget(id, now) => ForgetKeepsTidy(st, id, now);
    case OpFeedback(id, kind, now) => FeedbackKeepsTidy(st, id, kind, now);
    case OpRebuild => RebuildKeepsTidy(st);
    case OpRestart(_) =>
  }

  lemma TidyPicksAreFair(st: Engine, op: Op)
    requires Tidy(st.db)
    ensures FairPick(st, op)
  {
    forall members, winner | Picks(st, op, members, winner)
      ensures Clears(st.db.memories, winner, Losers(members, winner))
    {
      var k := FindConflict(st.db.conflicts, op.conflict).value;
      assert MemberFits(st.db, st.db.conflicts[k], winner);
      assert AvoidsWithin(st.db.memories, winner, Losers(members, winner), 0);
    }
  }

  lemma {:induction false} RunKeepsTidy(st: Engine, ops: seq<Op>)
    requires Tidy(st.db) && Forest(st.db.memories) && OneScopes(Run(st, ops).db)
    ensures Tidy(Run(st, ops).db) && Forest(Run(st, ops).db.memories)
    decreases |ops|
  {
    if ops != [] {
      StepKeepsGrounded(st, ops[0]);
      RunKeepsGrounded(Step(st, ops[0]), ops[1..]);
      OneScopesBefore(Step(st, ops[0]).db, Run(st, ops).db);
      TidyPicksAreFair(st, ops[0]);
      StepForest(st, ops[0]);
      StepKeepsTidy(st, ops[0]);
      RunKeepsTidy(Step(st, ops[0]), ops[1..]);
    }
  }

  /** The memory is a member of the i-th conflict, which is unresolved. */
  predicate OpenMember(db: Db, i: int, id: MemoryId) {
    0 <= i < |db.conflicts| && db.conflicts[i].resolution == Unresolved && id in db.conflicts[i].members
  }

  /** The headline, for every run of a fresh daemon that stored only memories
      with one scope each: members of unresolved conflicts are never superseded, no memory lies in two
      unresolved conflicts, and superseded_by is a forest. */
  lemma OneScopeForest(embedder: Embedder, ops: seq<Op>)
    requires OneScopes(Run(Boot(embedder), ops).db)
    ensures var db := Run(Boot(embedder), ops).db;
            && Forest(db.memories)
            && (forall i, id :: OpenMember(db, i, id) ==> MemberFits(db, db.conflicts[i], id))
            && (forall i, j, id :: OpenMember(db, i, id) && OpenMember(db, j, id) ==> i == j)
  {
    RunKeepsTidy(Boot(embedder), ops);
    var db := Run(Boot(embedder), ops).db;
    forall i, j, id | OpenMember(db, i, id) && OpenMember(db, j, id)
      ensures i == j
    {
      OneConflictEach(db, i, j, id);
    }
  }
}
