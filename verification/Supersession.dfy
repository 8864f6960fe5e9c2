/** The superseded_by relation. It stays a forest exactly as long as no pick lets
    a memory win over one that, directly or through others, already supersedes
    it. */
module Supersession {
  import opened Domain
  import opened Tables
  import opened VectorIndexes
  import opened Engines
  import opened IndexInvariant
  import opened Conflicts

  type MemoryTable = map<MemoryId, Memory>

  /** Following superseded_by from id reaches a memory that nothing supersedes
      within n steps. */
  ghost predicate RootedWithin(memories: MemoryTable, id: MemoryId, n: nat)
    decreases n
  {
    && id in memories
    && (memories[id].supersededBy.None? || (n > 0 && RootedWithin(memories, memories[id].supersededBy.value, n - 1)))
  }

  ghost predicate Rooted(memories: MemoryTable, id: MemoryId) {
    exists n: nat :: RootedWithin(memories, id, n)
  }

  ghost predicate Forest(memories: MemoryTable) {
    forall id :: id in memories ==> Rooted(memories, id)
  }

  /** As RootedWithin, on a path that meets no memory of a set. */
  ghost predicate AvoidsWithin(memories: MemoryTable, id: MemoryId, avoided: set<MemoryId>, n: nat)
    decreases n
  {
    && id in memories && id !in avoided
    && (memories[id].supersededBy.None?
        || (n > 0 && AvoidsWithin(memories, memories[id].supersededBy.value, avoided, n - 1)))
  }

  ghost predicate Clears(memories: MemoryTable, id: MemoryId, avoided: set<MemoryId>) {
    exists n: nat :: AvoidsWithin(memories, id, avoided, n)
  }

  /** The losers now point at the winner; nothing else about the relation
      changed. */
  ghost predicate Redirected(memories: MemoryTable, memories': MemoryTable, losers: set<MemoryId>, winner: MemoryId) {
    && memories'.Keys == memories.Keys
    && forall id :: id in memories ==>
         memories'[id].supersededBy == if id in losers then Some(winner) else memories[id].supersededBy
  }

  // ---- Redirecting edges ----------------------------------------------------

  lemma {:induction false} RootedLonger(memories: MemoryTable, id: MemoryId, n: nat, more: nat)
    requires RootedWithin(memories, id, n) && n <= more
    ensures RootedWithin(memories, id, more)
    decreases n
  {
    if memories[id].supersededBy.Some? {
      RootedLonger(memories, memories[id].supersededBy.value, n - 1, more - 1);
    }
  }

  lemma {:induction false} AvoidingSurvives(
    memories: MemoryTable, memories': MemoryTable, losers: set<MemoryId>, winner: MemoryId, id: MemoryId, n: nat)
    requires Redirected(memories, memories', losers, winner) && AvoidsWithin(memories, id, losers, n)
    ensures RootedWithin(memories', id, n)
    decreases n
  {
    if memories[id].supersededBy.Some? {
      AvoidingSurvives(memories, memories', losers, winner, memories[id].supersededBy.value, n - 1);
    }
  }

  lemma {:induction false} RootedThroughWinner(
    memories: MemoryTable, memories': MemoryTable, losers: set<MemoryId>, winner: MemoryId,
    id: MemoryId, n: nat, k: nat)
    requires Redirected(memories, memories', losers, winner)
    requires RootedWithin(memories, id, n) && RootedWithin(memories', winner, k)
    ensures RootedWithin(memories', id, n + k + 1)
    decreases n
  {
    if id in losers {
      RootedLonger(memories', winner, k, n + k);
    } else if memories[id].supersededBy.Some? {
      RootedThroughWinner(memories, memories', losers, winner, memories[id].supersededBy.value, n - 1, k);
    }
  }

  /** A rooted path either avoids the losers or passes through the winner later
      on. */
  lemma {:induction false} AvoidsOrReturns(
    memories: MemoryTable, memories': MemoryTable, losers: set<MemoryId>, winner: MemoryId, id: MemoryId, n: nat)
    requires Redirected(memories, memories', losers, winner) && RootedWithin(memories', id, n)
    ensures AvoidsWithin(memories, id, losers, n) || exists k: nat :: k < n && RootedWithin(memories', winner, k)
    decreases n
  {
    if id in losers {
      assert RootedWithin(memories', winner, n - 1);
      assert exists k: nat :: k < n && RootedWithin(memories', winner, k);
    } else if memories[id].supersededBy.Some? {
      var next := memories[id].supersededBy.value;
      AvoidsOrReturns(memories, memories', losers, winner, next, n - 1);
      if !AvoidsWithin(memories, next, losers, n - 1) {
        var k: nat :| k < n - 1 && RootedWithin(memories', winner, k);
        assert exists k: nat :: k < n && RootedWithin(memories', winner, k);
      }
    }
  }

  lemma {:induction false} RootedWinnerAvoids(
    memories: MemoryTable, memories': MemoryTable, losers: set<MemoryId>, winner: MemoryId, n: nat)
    requires Redirected(memories, memories', losers, winner) && RootedWithin(memories', winner, n)
    ensures Clears(memories, winner, losers)
    decreases n
  {
    AvoidsOrReturns(memories, memories', losers, winner, winner, n);
    if !AvoidsWithin(memories, winner, losers, n) {
      var k: nat :| k < n && RootedWithin(memories', winner, k);
      RootedWinnerAvoids(memories, memories', losers, winner, k);
    }
  }

  /** Redirecting a set of memories to a winner keeps a forest a forest exactly
      when the winner's own chain meets none of them. */
  lemma RedirectKeepsForest(memories: MemoryTable, memories': MemoryTable, losers: set<MemoryId>, winner: MemoryId)
    requires Forest(memories) && winner in memories
    requires Redirected(memories, memories', losers, winner)
    ensures Forest(memories') <==> Clears(memories, winner, losers)
  {
    if k: nat :| AvoidsWithin(memories, winner, losers, k) {
      AvoidingSurvives(memories, memories', losers, winner, winner, k);
      forall id | id in memories'
        ensures Rooted(memories', id)
      {
        var n :| RootedWithin(memories, id, n);
        RootedThroughWinner(memories, memories', losers, winner, id, n, k);
      }
    }
    if Forest(memories') {
      var n :| RootedWithin(memories', winner, n);
      RootedWinnerAvoids(memories, memories', losers, winner, n);
    }
  }

  /** Stored relations are kept and new memories are roots. */
  ghost predicate OnlyNewRoots(memories: MemoryTable, memories': MemoryTable) {
    && (forall id :: id in memories ==> id in memories' && memories'[id].supersededBy == memories[id].supersededBy)
    && (forall id :: id in memories' && id !in memories ==> memories'[id].supersededBy.None?)
  }

  lemma {:induction false} NewRootsKeepPath(memories: MemoryTable, memories': MemoryTable, id: MemoryId, n: nat)
    requires OnlyNewRoots(memories, memories') && RootedWithin(memories, id, n)
    ensures RootedWithin(memories', id, n)
    decreases n
  {
    if memories[id].supersededBy.Some? {
      NewRootsKeepPath(memories, memories', memories[id].supersededBy.value, n - 1);
    }
  }

  lemma NewRootsKeepForest(memories: MemoryTable, memories': MemoryTable)
    requires Forest(memories) && OnlyNewRoots(memories, memories')
    ensures Forest(memories')
  {
    forall id | id in memories'
      ensures Rooted(memories', id)
    {
      if id in memories {
        var n :| RootedWithin(memories, id, n);
        NewRootsKeepPath(memories, memories', id, n);
      } else {
        assert RootedWithin(memories', id, 0);
      }
    }
  }

  // ---- What each step does to the relation ----------------------------------

  ghost function Losers(ids: seq<MemoryId>, winner: MemoryId): set<MemoryId> {
    set id | id in ids && id != winner
  }

  lemma {:induction false} RetireAllRelation(st: Engine, ids: seq<MemoryId>, verdict: Verdict, now: int)
    requires RetireAll(st, ids, verdict, now).Done?
    ensures var memories' := RetireAll(st, ids, verdict, now).state.db.memories;
            match verdict
            case LosesTo(winner) => Redirected(st.db.memories, memories', Losers(ids, winner), winner)
            case MergedInto(merged) =>
              merged !in ids ==> Redirected(st.db.memories, memories', Losers(ids, merged), merged)
            case Rejected => OnlyNewRoots(st.db.memories, memories')
    decreases |ids|
  {
    if ids != [] {
      RetireAllRelation(Retire(st, ids[0], verdict, now).state, ids[1..], verdict, now);
      assert forall id :: id in ids <==> id == ids[0] || id in ids[1..];
    }
  }

  /** The worker only adds rows. */
  lemma CandidateAddsRoots(st: Engine, w: Minted)
    ensures OnlyNewRoots(st.db.memories, ProcessCandidate(st, w).state.db.memories)
  {
    var confidence := ComputeConfidence(w.candidate);
    var decision := Decide(w.candidate, confidence);
    var m := ToMemory(w, confidence, decision.SaveEpisode?);
    RememberTables(st, m, w.linked);
    RecordConflictTables(st, w, Detect(st.db, w.candidate));
  }

  lemma {:induction false} EventAddsRoots(st: Engine, work: seq<Minted>)
    ensures OnlyNewRoots(st.db.memories, ProcessEvent(st, work).state.db.memories)
    decreases |work|
  {
    if work != [] {
      CandidateAddsRoots(st, work[0]);
      if ProcessCandidate(st, work[0]).Done? {
        EventAddsRoots(ProcessCandidate(st, work[0]).state, work[1..]);
      }
    }
  }

  lemma {:induction false} DrainAddsRoots(st: Engine, events: seq<Event>, work: Event -> seq<Minted>)
    ensures OnlyNewRoots(st.db.memories, DrainEvents(st, events, work).db.memories)
    decreases |events|
  {
    if events != [] {
      EventAddsRoots(st, work(events[0]));
      DrainAddsRoots(DrainEvent(st, events[0], work(events[0])), events[1..], work);
    }
  }

  /** The conflict a pick would close in favour of this winner. */
  ghost predicate Picks(st: Engine, op: Op, members: seq<MemoryId>, winner: MemoryId) {
    && op.OpResolve? && op.action == Pick(winner)
    && var found := FindConflict(st.db.conflicts, op.conflict);
       && found.Some? && st.db.conflicts[found.value].resolution == Unresolved
       && members == st.db.conflicts[found.value].members && winner in members
  }

  /** If the step is a pick, no other member supersedes its winner, directly or
      through a chain. */
  ghost predicate FairPick(st: Engine, op: Op) {
    forall members, winner :: Picks(st, op, members, winner) ==>
      Clears(st.db.memories, winner, Losers(members, winner))
  }

  lemma PickForest(st: Engine, members: seq<MemoryId>, winner: MemoryId, now: int)
    requires Forest(st.db.memories) && winner in members
    requires forall id :: id in members ==> id in st.db.memories
    ensures var o := RetireAll(st, members, LosesTo(winner), now);
            o.Done? && (Forest(o.state.db.memories) <==>
                        Clears(st.db.memories, winner, Losers(members, winner)))
  {
    RetireAllShrinks(st, members, LosesTo(winner), now);
    RetireAllRelation(st, members, LosesTo(winner), now);
    var memories' := RetireAll(st, members, LosesTo(winner), now).state.db.memories;
    RedirectKeepsForest(st.db.memories, memories', Losers(members, winner), winner);
  }

  lemma RejectForest(st: Engine, members: seq<MemoryId>, now: int)
    requires Forest(st.db.memories)
    requires forall id :: id in members ==> id in st.db.memories
    ensures Forest(RetireAll(st, members, Rejected, now).state.db.memories)
  {
    RetireAllShrinks(st, members, Rejected, now);
    RetireAllRelation(st, members, Rejected, now);
    NewRootsKeepForest(st.db.memories, RetireAll(st, members, Rejected, now).state.db.memories);
  }

  lemma MergeForest(st: Engine, m: Memory, linked: Option<seq<EntityId>>, members: seq<MemoryId>, now: int)
    requires Forest(st.db.memories)
    requires forall id :: id in members ==> id in st.db.memories
    ensures var o := Remember(st, m, linked);
            Forest(o.state.db.memories)
            && (o.Done? ==> Forest(RetireAll(o.state, members, MergedInto(m.id), now).state.db.memories))
  {
    var o := Remember(st, m, linked);
    RememberTables(st, m, linked);
    NewRootsKeepForest(st.db.memories, o.state.db.memories);
    if o.Done? {
      assert m.id !in members;
      RetireAllShrinks(o.state, members, MergedInto(m.id), now);
      RetireAllRelation(o.state, members, MergedInto(m.id), now);
      assert AvoidsWithin(o.state.db.memories, m.id, Losers(members, m.id), 0);
      assert Clears(o.state.db.memories, m.id, Losers(members, m.id));
      RedirectKeepsForest(o.state.db.memories, RetireAll(o.state, members, MergedInto(m.id), now).state.db.memories,
                          Losers(members, m.id), m.id);
    }
  }

  lemma CloseKeepsMemories(o: Outcome, conflict: ConflictId, resolution: Resolution, now: int)
    ensures Close(o, conflict, resolution, now).state.db.memories == o.state.db.memories
  {}

  lemma ResolveForest(st: Engine, op: Op)
    requires Grounded(st.db) && Forest(st.db.memories) && op.OpResolve?
    ensures Forest(Step(st, op).db.memories) <==> FairPick(st, op)
  {
    var found := FindConflict(st.db.conflicts, op.conflict);
    if found.Some? && st.db.conflicts[found.value].resolution == Unresolved {
      var c := st.db.conflicts[found.value];
      var members := c.members;
      assert forall id :: id in members ==> id in st.db.memories;
      match op.action
      case Pick(winner) =>
        if winner in members {
          PickForest(st, members, winner, op.now);
          CloseKeepsMemories(RetireAll(st, members, LosesTo(winner), op.now), op.conflict, Picked, op.now);
        }
      case RejectAll =>
        RejectForest(st, members, op.now);
        CloseKeepsMemories(RetireAll(st, members, Rejected, op.now), op.conflict, RejectedAll, op.now);
      case Merge(_, _, _, _, _, mergedId, linked) =>
        var m := MergedMemory(st.db, c, op.action, op.now);
        MergeForest(st, m, linked, members, op.now);
        CloseKeepsMemories(RetireAll(Remember(st, m, linked).state, members, MergedInto(mergedId), op.now),
                           op.conflict, Merged, op.now);
    }
  }

  /** A step keeps superseded_by a forest exactly when it is not an unfair pick. */
  lemma StepForest(st: Engine, op: Op)
    requires Grounded(st.db) && Forest(st.db.memories)
    ensures Forest(Step(st, op).db.memories) <==> FairPick(st, op)
  {
    match op
    case OpResolve(_, _, _) => ResolveForest(st, op);
    case OpDrain(work) =>
      DrainAddsRoots(st, EventsAfter(st.db.events, st.db.checkpoint, BATCH_SIZE), work);
      NewRootsKeepForest(st.db.memories, Step(st, op).db.memories);
    case OpAdd(memory, linked) =>
      RememberTables(st, memory, linked);
      NewRootsKeepForest(st.db.memories, Step(st, op).db.memories);
    case OpForget(_, _) => NewRootsKeepForest(st.db.memories, Step(st, op).db.memories);
    case OpFeedback(_, _, _) => NewRootsKeepForest(st.db.memories, Step(st, op).db.memories);
    case OpRebuild =>
      EmbedAllTables(st.(db := ClearEmbeddings(st.db), index := EmptyIndex(st.index.dim)), ListActive(st.db));
    case OpRestart(_) =>
    case OpAppend(_) =>
  }
}
