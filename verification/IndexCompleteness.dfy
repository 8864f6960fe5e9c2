/** When the index mentions every active memory. From a complete index each
    operation leaves it complete exactly under a condition that can be read off
    the state and the operation's inputs before it: every row the tables accept
    also gets its links and its embedding. */
module IndexCompleteness {
  import opened Domain
  import opened Tables
  import opened VectorIndexes
  import opened Engines
  import opened IndexInvariant

  /** If the tables accept the row, its links and its embedding succeed too. */
  predicate Lands(st: Engine, m: Memory, linked: Option<seq<EntityId>>) {
    InsertMemory(st.db, m).Some? ==> linked.Some? && st.embedder.embed(ComposeText(m)).Some?
  }

  ghost predicate Missing(st: Engine, id: MemoryId) {
    id in st.db.memories && Active(st.db.memories[id]) && !Indexed(st, id)
  }

  lemma CompleteMissesNone(st: Engine)
    ensures Complete(st) <==> !exists id :: Missing(st, id)
  {
    if id :| id in st.db.memories && Active(st.db.memories[id]) && !Indexed(st, id) {
      assert Missing(st, id);
    }
  }

  /** Adding a row can lose the new memory and no other. */
  lemma RememberMisses(st: Engine, m: Memory, linked: Option<seq<EntityId>>, dimOf: string -> nat)
    requires Safe(st, dimOf)
    ensures forall id :: Missing(Remember(st, m, linked).state, id) <==>
              Missing(st, id) || (id == m.id && !Lands(st, m, linked))
  {
    RememberKeepsSafe(st, m, linked, dimOf);
    RememberTables(st, m, linked);
  }

  /** An insert leaves the index complete exactly when it was and the row lands. */
  lemma RememberKeepsComplete(st: Engine, m: Memory, linked: Option<seq<EntityId>>, dimOf: string -> nat)
    requires Safe(st, dimOf)
    ensures Complete(Remember(st, m, linked).state) <==> Complete(st) && Lands(st, m, linked)
  {
    var st' := Remember(st, m, linked).state;
    RememberMisses(st, m, linked, dimOf);
    CompleteMissesNone(st);
    CompleteMissesNone(st');
    assert !Lands(st, m, linked) ==> Missing(st', m.id);
    assert forall id :: Missing(st, id) ==> Missing(st', id);
  }

  /** Tables that agree on memories make an equally complete index. */
  lemma SameMemoriesSameCompleteness(st: Engine, db: Db)
    requires db.memories == st.db.memories
    ensures Complete(st.(db := db)) <==> Complete(st)
  {
    assert forall id :: Indexed(st.(db := db), id) <==> Indexed(st, id);
  }

  // ---- The worker -----------------------------------------------------------

  predicate CandidateLands(st: Engine, w: Minted) {
    Decide(w.candidate, ComputeConfidence(w.candidate)) == Discard || Lands(st, WorkerRow(w), w.linked)
  }

  lemma CandidateKeepsComplete(st: Engine, w: Minted, dimOf: string -> nat)
    requires Safe(st, dimOf)
    ensures Complete(ProcessCandidate(st, w).state) <==> Complete(st) && CandidateLands(st, w)
  {
    var decision := Decide(w.candidate, ComputeConfidence(w.candidate));
    if decision != Discard {
      RememberKeepsComplete(st, WorkerRow(w), w.linked, dimOf);
      var competing := Detect(st.db, w.candidate);
      if decision.Promote? && competing != [] {
        RecordConflictTables(st, w, competing);
        SameMemoriesSameCompleteness(Remember(st, WorkerRow(w), w.linked).state,
                                     RecordConflict(st, w, competing).state.db);
      }
    }
  }

  /** Every candidate of the event that is reached lands. */
  ghost predicate EventLands(st: Engine, work: seq<Minted>)
    decreases |work|
  {
    work != [] ==>
      && CandidateLands(st, work[0])
      && (ProcessCandidate(st, work[0]).Done? ==> EventLands(ProcessCandidate(st, work[0]).state, work[1..]))
  }

  lemma {:induction false} EventKeepsComplete(st: Engine, work: seq<Minted>, dimOf: string -> nat)
    requires Safe(st, dimOf)
    ensures Complete(ProcessEvent(st, work).state) <==> Complete(st) && EventLands(st, work)
    decreases |work|
  {
    if work != [] {
      CandidateKeepsSafe(st, work[0], dimOf);
      CandidateKeepsComplete(st, work[0], dimOf);
      var o := ProcessCandidate(st, work[0]);
      if o.Done? {
        EventKeepsComplete(o.state, work[1..], dimOf);
      }
    }
  }

  ghost predicate DrainLands(st: Engine, events: seq<Event>, work: Event -> seq<Minted>)
    decreases |events|
  {
    events != [] ==>
      && EventLands(st, work(events[0]))
      && DrainLands(DrainEvent(st, events[0], work(events[0])), events[1..], work)
  }

  lemma {:induction false} DrainKeepsComplete(
    st: Engine, events: seq<Event>, work: Event -> seq<Minted>, dimOf: string -> nat)
    requires Safe(st, dimOf)
    ensures Complete(DrainEvents(st, events, work)) <==> Complete(st) && DrainLands(st, events, work)
    decreases |events|
  {
    if events != [] {
      var o := ProcessEvent(st, work(events[0]));
      var next := DrainEvent(st, events[0], work(events[0]));
      EventKeepsSafe(st, work(events[0]), dimOf);
      EventKeepsComplete(st, work(events[0]), dimOf);
      SameMemoriesSameCompleteness(o.state, next.db);
      DrainKeepsComplete(next, events[1..], work, dimOf);
    }
  }

  // ---- Resolution -----------------------------------------------------------

  /** A merge that is not refused: its memory lands. */
  predicate ResolutionLands(st: Engine, conflict: ConflictId, action: Action, now: int) {
    var found := FindConflict(st.db.conflicts, conflict);
    found.Some? && st.db.conflicts[found.value].resolution == Unresolved && action.Merge? ==>
      Lands(st, MergedMemory(st.db, st.db.conflicts[found.value], action, now), action.linked)
  }

  lemma RetireAndCloseKeepsComplete(
    st: Engine, ids: seq<MemoryId>, verdict: Verdict, conflict: ConflictId, resolution: Resolution, now: int,
    dimOf: string -> nat)
    requires Safe(st, dimOf) && Complete(st)
    ensures Complete(Close(RetireAll(st, ids, verdict, now), conflict, resolution, now).state)
  {
    RetireAllKeepsSafe(st, ids, verdict, now, dimOf);
    CloseKeepsSafe(RetireAll(st, ids, verdict, now), conflict, resolution, now, dimOf);
  }

  lemma ResolveKeepsComplete(st: Engine, conflict: ConflictId, action: Action, now: int, dimOf: string -> nat)
    requires Safe(st, dimOf) && Complete(st)
    ensures Complete(ResolveConflict(st, conflict, action, now).state) <==> ResolutionLands(st, conflict, action, now)
  {
    var found := FindConflict(st.db.conflicts, conflict);
    if found.Some? && st.db.conflicts[found.value].resolution == Unresolved {
      var c := st.db.conflicts[found.value];
      match action
      case Pick(winner) => RetireAndCloseKeepsComplete(st, c.members, LosesTo(winner), conflict, Picked, now, dimOf);
      case RejectAll => RetireAndCloseKeepsComplete(st, c.members, Rejected, conflict, RejectedAll, now, dimOf);
      case Merge(_, _, _, _, _, mergedId, linked) =>
        var m := MergedMemory(st.db, c, action, now);
        var o := Remember(st, m, linked);
        RememberKeepsSafe(st, m, linked, dimOf);
        RememberKeepsComplete(st, m, linked, dimOf);
        if o.Done? {
          RetireAndCloseKeepsComplete(o.state, c.members, MergedInto(mergedId), conflict, Merged, now, dimOf);
        }
    }
  }

  // ---- Restart --------------------------------------------------------------

  /** Every active memory has an embedding under the model. */
  ghost predicate EmbeddedUnder(db: Db, model: string) {
    forall id :: id in db.memories && Active(db.memories[id]) ==> EmbeddingExists(db, id, model)
  }

  /** A restart finds exactly the memories embedded under its model; under the
      same model a complete index stays complete. */
  lemma RestartKeepsComplete(st: Engine, embedder: Embedder, dimOf: string -> nat)
    requires Safe(st, dimOf) && Faithful(embedder, dimOf)
    ensures Complete(Restart(st, embedder).state) <==> EmbeddedUnder(st.db, embedder.model)
    ensures embedder.model == st.embedder.model ==>
              Restart(st, embedder).state.index.side == st.index.side
              && (Complete(Restart(st, embedder).state) <==> Complete(st))
  {
    RestartReloads(st, embedder, dimOf);
    var st' := Restart(st, embedder).state;
    forall id
      ensures EmbeddingExists(st.db, id, embedder.model) <==> Indexed(st', id)
    {
      NotStoredNotIndexed(st', id, dimOf);
    }
    assert embedder.model == st.embedder.model ==> forall id :: Indexed(st', id) <==> Indexed(st, id);
  }

  // ---- Every run ------------------------------------------------------------

  /** What the operation needs, seen before it, to leave every active memory in
      the index. */
  ghost predicate OpLands(st: Engine, op: Op) {
    match op
    case OpDrain(work) => DrainLands(st, EventsAfter(st.db.events, st.db.checkpoint, BATCH_SIZE), work)
    case OpAdd(memory, linked) => Lands(st, memory, linked)
    case OpResolve(conflict, action, now) => ResolutionLands(st, conflict, action, now)
    case OpRebuild =>
      forall id :: id in st.db.memories && Active(st.db.memories[id]) ==>
                     st.embedder.embed(ComposeText(st.db.memories[id])).Some?
    case OpRestart(embedder) => EmbeddedUnder(st.db, embedder.model)
    case _ => true
  }

  /** From a complete index a step leaves it complete if and only if what it
      stores lands. */
  lemma StepKeepsComplete(st: Engine, op: Op, dimOf: string -> nat)
    requires Safe(st, dimOf) && FaithfulOp(op, dimOf) && Complete(st)
    ensures Complete(Step(st, op)) <==> OpLands(st, op)
  {
    match op
    case OpAppend(event) => SameMemoriesSameCompleteness(st, InsertEvent(st.db, event));
    case OpDrain(work) =>
      DrainKeepsComplete(st, EventsAfter(st.db.events, st.db.checkpoint, BATCH_SIZE), work, dimOf);
    case OpAdd(memory, linked) => RememberKeepsComplete(st, memory, linked, dimOf);
    case OpForget(id, now) => ForgetKeepsSafe(st, id, now, dimOf);
    case OpFeedback(id, kind, now) => FeedbackKeepsSafe(st, id, kind, now, dimOf);
    case OpResolve(conflict, action, now) => ResolveKeepsComplete(st, conflict, action, now, dimOf);
    case OpRebuild => RebuildRestores(st, dimOf);
    case OpRestart(embedder) => RestartKeepsComplete(st, embedder, dimOf);
  }

  ghost predicate RunLands(st: Engine, ops: seq<Op>)
    decreases |ops|
  {
    ops != [] ==> OpLands(st, ops[0]) && RunLands(Step(st, ops[0]), ops[1..])
  }

  lemma {:induction false} RunKeepsComplete(st: Engine, ops: seq<Op>, dimOf: string -> nat)
    requires Safe(st, dimOf) && Complete(st) && RunLands(st, ops)
    requires forall i :: 0 <= i < |ops| ==> FaithfulOp(ops[i], dimOf)
    ensures Complete(Run(st, ops))
    decreases |ops|
  {
    if ops != [] {
      StepKeepsSafe(st, ops[0], dimOf);
      StepKeepsComplete(st, ops[0], dimOf);
      RunKeepsComplete(Step(st, ops[0]), ops[1..], dimOf);
    }
  }

  // ---- Operations that complete ---------------------------------------------

  /** The operation completes, and a restart keeps the model. */
  ghost predicate Completes(st: Engine, op: Op) {
    match op
    case OpDrain(work) => EventsComplete(st, EventsAfter(st.db.events, st.db.checkpoint, BATCH_SIZE), work)
    case OpAdd(memory, linked) => Remember(st, memory, linked).Done?
    case OpResolve(conflict, action, now) => ResolveConflict(st, conflict, action, now).Done?
    case OpRebuild => Rebuild(st).Done?
    case OpRestart(embedder) => embedder.model == st.embedder.model
    case _ => true
  }

  lemma {:induction false} DoneEventLands(st: Engine, work: seq<Minted>, dimOf: string -> nat)
    requires Safe(st, dimOf) && ProcessEvent(st, work).Done?
    ensures EventLands(st, work)
    decreases |work|
  {
    if work != [] {
      CandidateKeepsSafe(st, work[0], dimOf);
      if Decide(work[0].candidate, ComputeConfidence(work[0].candidate)) != Discard {
        RememberKeepsSafe(st, WorkerRow(work[0]), work[0].linked, dimOf);
      }
      DoneEventLands(ProcessCandidate(st, work[0]).state, work[1..], dimOf);
    }
  }

  lemma {:induction false} DoneDrainLands(
    st: Engine, events: seq<Event>, work: Event -> seq<Minted>, dimOf: string -> nat)
    requires Safe(st, dimOf) && EventsComplete(st, events, work)
    ensures DrainLands(st, events, work)
    decreases |events|
  {
    if events != [] {
      EventKeepsSafe(st, work(events[0]), dimOf);
      DoneEventLands(st, work(events[0]), dimOf);
      DoneDrainLands(DrainEvent(st, events[0], work(events[0])), events[1..], work, dimOf);
    }
  }

  /** Whatever completes lands. */
  lemma CompletedLands(st: Engine, op: Op, dimOf: string -> nat)
    requires Safe(st, dimOf) && Complete(st) && FaithfulOp(op, dimOf) && Completes(st, op)
    ensures OpLands(st, op)
  {
    match op
    case OpDrain(work) =>
      DoneDrainLands(st, EventsAfter(st.db.events, st.db.checkpoint, BATCH_SIZE), work, dimOf);
    case OpAdd(memory, linked) => RememberKeepsSafe(st, memory, linked, dimOf);
    case OpResolve(conflict, action, now) =>
      if action.Merge? {
        var c := st.db.conflicts[FindConflict(st.db.conflicts, conflict).value];
        RememberKeepsSafe(st, MergedMemory(st.db, c, action, now), action.linked, dimOf);
      }
    case OpRebuild => RebuildRestores(st, dimOf);
    case OpRestart(embedder) => RestartKeepsComplete(st, embedder, dimOf);
    case _ =>
  }

  ghost predicate RunCompletes(st: Engine, ops: seq<Op>)
    decreases |ops|
  {
    ops != [] ==> Completes(st, ops[0]) && RunCompletes(Step(st, ops[0]), ops[1..])
  }

  lemma {:induction false} CompletedRunLands(st: Engine, ops: seq<Op>, dimOf: string -> nat)
    requires Safe(st, dimOf) && Complete(st) && RunCompletes(st, ops)
    requires forall i :: 0 <= i < |ops| ==> FaithfulOp(ops[i], dimOf)
    ensures RunLands(st, ops)
    decreases |ops|
  {
    if ops != [] {
      CompletedLands(st, ops[0], dimOf);
      StepKeepsSafe(st, ops[0], dimOf);
      StepKeepsComplete(st, ops[0], dimOf);
      CompletedRunLands(Step(st, ops[0]), ops[1..], dimOf);
    }
  }

  // ---- The headline ---------------------------------------------------------

  ghost function ActiveIds(db: Db): set<MemoryId> {
    set id | id in db.memories && Active(db.memories[id])
  }

  ghost function IndexedIds(st: Engine): set<MemoryId> {
    set s | s in st.index.side :: st.index.side[s].memoryId
  }

  predicate Describes(p: Point, db: Db) {
    p.memoryId in db.memories
    && p.scope == db.memories[p.memoryId].scope && p.kind == db.memories[p.memoryId].kind
  }

  lemma SafeNamesActive(st: Engine, dimOf: string -> nat)
    requires Safe(st, dimOf)
    ensures IndexedIds(st) <= ActiveIds(st.db)
    ensures forall s :: s in st.index.side ==>
              s in st.db.rows && s < st.index.nextSeq && s < st.db.nextRow && Describes(st.index.side[s], st.db)
    ensures forall s, t :: s in st.index.side && t in st.index.side && s != t ==>
              st.index.side[s].memoryId != st.index.side[t].memoryId
    ensures Complete(st) <==> IndexedIds(st) == ActiveIds(st.db)
  {
    forall s | s in st.index.side
      ensures s in st.db.rows && RowSound(st.db, st.db.rows[s], dimOf)
    {}
    forall s, t | s in st.index.side && t in st.index.side && st.index.side[s].memoryId == st.index.side[t].memoryId
      ensures s == t
    {
      assert SameSlot(st.db.rows[s], st.db.rows[t]);
    }
    forall id
      ensures Indexed(st, id) <==> id in IndexedIds(st)
    {}
  }

  /** The headline, from a fresh daemon: the index names only active memories,
      each under one seq_id with its stored scope and kind, and no future seq_id
      is taken. In a run whose operations complete under one model, and more
      generally in one whose accepted rows all land, it names exactly the active
      memories. */
  lemma IndexAgreesWithMemories(embedder: Embedder, ops: seq<Op>, dimOf: string -> nat)
    requires Faithful(embedder, dimOf)
    requires forall i :: 0 <= i < |ops| ==> FaithfulOp(ops[i], dimOf)
    ensures var st := Run(Boot(embedder), ops);
            && IndexedIds(st) <= ActiveIds(st.db)
            && (forall s :: s in st.index.side ==>
                  s in st.db.rows && s < st.index.nextSeq && s < st.db.nextRow && Describes(st.index.side[s], st.db))
            && (forall s, t :: s in st.index.side && t in st.index.side && s != t ==>
                  st.index.side[s].memoryId != st.index.side[t].memoryId)
            && (RunLands(Boot(embedder), ops) ==> IndexedIds(st) == ActiveIds(st.db))
    ensures RunCompletes(Boot(embedder), ops) ==> RunLands(Boot(embedder), ops)
  {
    var boot := Boot(embedder);
    assert boot.index.side == Mirror(boot.db.rows, embedder.model);
    RunKeepsSafe(boot, ops, dimOf);
    SafeNamesActive(Run(boot, ops), dimOf);
    if RunLands(boot, ops) {
      RunKeepsComplete(boot, ops, dimOf);
    }
    if RunCompletes(boot, ops) {
      CompletedRunLands(boot, ops, dimOf);
    }
  }
}
