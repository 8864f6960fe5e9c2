/** What the graph ranks: over every run, each live index entry has exactly one
    point in the graph, and its vector is the embedding of its memory's stored
    text and fact under the live model. */
module VectorFidelity {
  import opened Domain
  import opened Tables
  import opened VectorIndexes
  import opened Engines
  import IndexInvariant

  /** The embedding function each model name stands for. */
  type Models = (string, string) -> Option<Vector>

  ghost predicate Genuine(e: Embedder, models: Models) {
    forall text :: e.embed(text) == models(e.model, text)
  }

  predicate RowGenuine(db: Db, row: EmbeddingRow, models: Models) {
    row.memoryId in db.memories
    && models(row.model, ComposeText(db.memories[row.memoryId])) == Some(row.vector)
  }

  ghost predicate RowsGenuine(db: Db, models: Models) {
    forall s :: s in db.rows ==> s < db.nextRow && RowGenuine(db, db.rows[s], models)
  }

  predicate PointGenuine(g: GraphPoint, db: Db) {
    g.seqId < db.nextRow && (g.seqId in db.rows ==> g.vector == db.rows[g.seqId].vector)
  }

  ghost predicate InGraph(ix: Index, s: nat) {
    exists i :: 0 <= i < |ix.graph| && ix.graph[i].seqId == s
  }

  /** Points have different seq_ids and their stored vectors; every side entry
      copies a stored row and has a point. */
  ghost predicate GraphGenuine(ix: Index, db: Db) {
    && (forall i :: 0 <= i < |ix.graph| ==> PointGenuine(ix.graph[i], db))
    && (forall i, j :: 0 <= i < j < |ix.graph| ==> ix.graph[i].seqId != ix.graph[j].seqId)
    && (forall s :: s in ix.side ==> s in db.rows && ix.side[s] == PointOf(db.rows[s]) && InGraph(ix, s))
  }

  ghost predicate Fidelity(st: Engine, models: Models) {
    Genuine(st.embedder, models) && RowsGenuine(st.db, models) && GraphGenuine(st.index, st.db)
  }

  // ---- One memory -----------------------------------------------------------

  /** Tables that keep every memory's text, and the rows, keep fidelity. */
  lemma SameTextsSameFidelity(st: Engine, db: Db, models: Models)
    requires Fidelity(st, models)
    requires forall id :: id in st.db.memories ==>
               id in db.memories && ComposeText(db.memories[id]) == ComposeText(st.db.memories[id])
    requires db.rows == st.db.rows && db.nextRow == st.db.nextRow
    ensures Fidelity(st.(db := db), models)
  {}

  lemma InsertKeepsGraph(ix: Index, db: Db, row: EmbeddingRow)
    requires GraphGenuine(ix, db) && forall s :: s in db.rows ==> s < db.nextRow
    ensures GraphGenuine(ix, InsertEmbedding(db, row))
    ensures var next := InsertWithSeq(ix, db.nextRow, row.vector, PointOf(row));
            next.Some? ==> GraphGenuine(next.value, InsertEmbedding(db, row))
  {
    var db' := InsertEmbedding(db, row);
    forall i | 0 <= i < |ix.graph|
      ensures PointGenuine(ix.graph[i], db') && ix.graph[i].seqId != db.nextRow
    {
      assert PointGenuine(ix.graph[i], db);
    }
    var next := InsertWithSeq(ix, db.nextRow, row.vector, PointOf(row));
    if next.Some? {
      InsertedInGraph(ix, next.value, db.nextRow, row.vector);
    }
  }

  lemma InsertedInGraph(ix: Index, next: Index, n: nat, vector: Vector)
    requires next.graph == ix.graph + [GraphPoint(n, vector)]
    ensures InGraph(next, n)
    ensures forall s :: InGraph(ix, s) ==> InGraph(next, s)
  {
    assert next.graph[|ix.graph|].seqId == n;
    forall s | InGraph(ix, s)
      ensures InGraph(next, s)
    {
      var i :| 0 <= i < |ix.graph| && ix.graph[i].seqId == s;
      assert next.graph[i].seqId == s;
    }
  }

  lemma EmbedKeepsFidelity(st: Engine, m: Memory, models: Models)
    requires Fidelity(st, models)
    requires m.id in st.db.memories && ComposeText(m) == ComposeText(st.db.memories[m.id])
    ensures Fidelity(EmbedAndIndex(st, m).state, models)
    ensures EmbedAndIndex(st, m).state.db.memories == st.db.memories
    ensures EmbedAndIndex(st, m).state.embedder == st.embedder
  {
    if !EmbeddingExists(st.db, m.id, st.embedder.model) && st.embedder.embed(ComposeText(m)).Some? {
      var row := EmbeddingRow(m.id, m.scope, m.kind, st.embedder.model, st.embedder.embed(ComposeText(m)).value);
      InsertKeepsGraph(st.index, st.db, row);
    }
  }

  lemma RememberKeepsFidelity(st: Engine, m: Memory, linked: Option<seq<EntityId>>, models: Models)
    requires Fidelity(st, models)
    ensures Fidelity(Remember(st, m, linked).state, models)
    ensures Remember(st, m, linked).state.embedder == st.embedder
  {
    if InsertMemory(st.db, m).Some? {
      var inserted := InsertMemory(st.db, m).value;
      SameTextsSameFidelity(st, inserted, models);
      if linked.Some? {
        var db := LinkAll(inserted, m.id, linked.value);
        SameTextsSameFidelity(st, db, models);
        EmbedKeepsFidelity(st.(db := db), m, models);
      }
    }
  }

  lemma UnindexKeepsFidelity(st: Engine, id: MemoryId, models: Models)
    requires Fidelity(st, models)
    ensures Fidelity(Unindex(st, id), models)
  {}

  // ---- Operations -----------------------------------------------------------

  lemma RetireKeepsFidelity(st: Engine, id: MemoryId, verdict: Verdict, now: int, models: Models)
    requires Fidelity(st, models)
    ensures Fidelity(Retire(st, id, verdict, now).state, models)
    ensures Retire(st, id, verdict, now).state.embedder == st.embedder
  {
    if verdict != LosesTo(id) && id in st.db.memories {
      var db := match verdict
        case LosesTo(winner) => Supersede(st.db, id, winner, now).value
        case MergedInto(merged) => Supersede(st.db, id, merged, now).value
        case Rejected => SoftDelete(st.db, id, now).value;
      SameTextsSameFidelity(st, db, models);
      UnindexKeepsFidelity(st.(db := db), id, models);
    }
  }

  lemma {:induction false} RetireAllKeepsFidelity(
    st: Engine, ids: seq<MemoryId>, verdict: Verdict, now: int, models: Models)
    requires Fidelity(st, models)
    ensures Fidelity(RetireAll(st, ids, verdict, now).state, models)
    decreases |ids|
  {
    if ids != [] {
      RetireKeepsFidelity(st, ids[0], verdict, now, models);
      var o := Retire(st, ids[0], verdict, now);
      if o.Done? {
        RetireAllKeepsFidelity(o.state, ids[1..], verdict, now, models);
      }
    }
  }

  lemma ResolveKeepsFidelity(st: Engine, conflict: ConflictId, action: Action, now: int, models: Models)
    requires Fidelity(st, models)
    ensures Fidelity(ResolveConflict(st, conflict, action, now).state, models)
  {
    var found := FindConflict(st.db.conflicts, conflict);
    if found.Some? && st.db.conflicts[found.value].resolution == Unresolved {
      var c := st.db.conflicts[found.value];
      match action
      case Pick(winner) =>
        RetireAllKeepsFidelity(st, c.members, LosesTo(winner), now, models);
      case RejectAll =>
        RetireAllKeepsFidelity(st, c.members, Rejected, now, models);
      case Merge(_, _, _, _, _, mergedId, linked) =>
        var m := MergedMemory(st.db, c, action, now);
        var o := Remember(st, m, linked);
        RememberKeepsFidelity(st, m, linked, models);
        if o.Done? {
          RetireAllKeepsFidelity(o.state, c.members, MergedInto(mergedId), now, models);
        }
    }
  }

  lemma {:induction false} EmbedAllKeepsFidelity(st: Engine, memories: seq<Memory>, models: Models)
    requires Fidelity(st, models)
    requires forall m :: m in memories ==> m.id in st.db.memories && st.db.memories[m.id] == m
    ensures Fidelity(EmbedAll(st, memories).state, models)
    decreases |memories|
  {
    if memories != [] {
      EmbedKeepsFidelity(st, memories[0], models);
      var o := EmbedAndIndex(st, memories[0]);
      if o.Done? {
        assert forall n :: n in memories[1..] ==> n in memories;
        EmbedAllKeepsFidelity(o.state, memories[1..], models);
      }
    }
  }

  lemma RebuildKeepsFidelity(st: Engine, models: Models)
    requires Fidelity(st, models) && IndexInvariant.Keyed(st.db)
    ensures Fidelity(Rebuild(st).state, models)
  {
    IndexInvariant.ListActiveElements(st.db);
    EmbedAllKeepsFidelity(st.(db := ClearEmbeddings(st.db), index := EmptyIndex(st.index.dim)), ListActive(st.db),
                          models);
  }

  // ---- Reloading ------------------------------------------------------------

  /** Stored seq_ids in ascending order, all below a bound. */
  ghost predicate AscendingRows(ids: seq<nat>, rows: map<nat, EmbeddingRow>, bound: nat) {
    && (forall i :: 0 <= i < |ids| ==> ids[i] < bound && ids[i] in rows)
    && (forall i, j :: 0 <= i < j < |ids| ==> ids[i] < ids[j])
  }

  lemma {:induction false} SeqIdsAscend(rows: map<nat, EmbeddingRow>, model: string, bound: nat)
    ensures AscendingRows(SeqIds(rows, model, bound), rows, bound)
  {
    if bound > 0 {
      SeqIdsAscend(rows, model, bound - 1);
      var ids := SeqIds(rows, model, bound - 1);
      assert SeqIds(rows, model, bound) == ids || SeqIds(rows, model, bound) == ids + [bound - 1];
    }
  }

  lemma {:induction false} LoadRowsKeepsGraph(ix: Index, db: Db, seqIds: seq<nat>)
    requires GraphGenuine(ix, db)
    requires AscendingRows(seqIds, db.rows, db.nextRow)
    requires forall i, j :: 0 <= i < |ix.graph| && 0 <= j < |seqIds| ==> ix.graph[i].seqId < seqIds[j]
    ensures GraphGenuine(LoadRows(ix, db.rows, seqIds).0, db)
    decreases |seqIds|
  {
    if seqIds != [] {
      var s := seqIds[0];
      var next := InsertWithSeq(ix, s, db.rows[s].vector, PointOf(db.rows[s]));
      if next.Some? {
        InsertedInGraph(ix, next.value, s, db.rows[s].vector);
        assert forall i :: 0 <= i < |seqIds[1..]| ==> seqIds[1..][i] == seqIds[i + 1];
        LoadRowsKeepsGraph(next.value, db, seqIds[1..]);
      }
    }
  }

  lemma RestartKeepsFidelity(st: Engine, embedder: Embedder, models: Models)
    requires Fidelity(st, models) && Genuine(embedder, models)
    ensures Fidelity(Restart(st, embedder).state, models)
  {
    SeqIdsAscend(st.db.rows, embedder.model, st.db.nextRow);
    LoadRowsKeepsGraph(EmptyIndex(embedder.dim), st.db, SeqIds(st.db.rows, embedder.model, st.db.nextRow));
  }

  // ---- The worker -----------------------------------------------------------

  lemma CandidateKeepsFidelity(st: Engine, w: Minted, models: Models)
    requires Fidelity(st, models)
    ensures Fidelity(ProcessCandidate(st, w).state, models)
  {
    var confidence := ComputeConfidence(w.candidate);
    var decision := Decide(w.candidate, confidence);
    if decision != Discard {
      var m := ToMemory(w, confidence, decision.SaveEpisode?);
      RememberKeepsFidelity(st, m, w.linked, models);
      var competing := Detect(st.db, w.candidate);
      if decision.Promote? && competing != [] {
        IndexInvariant.RecordConflictTables(st, w, competing);
        SameTextsSameFidelity(Remember(st, m, w.linked).state, RecordConflict(st, w, competing).state.db, models);
      }
    }
  }

  lemma {:induction false} EventKeepsFidelity(st: Engine, work: seq<Minted>, models: Models)
    requires Fidelity(st, models)
    ensures Fidelity(ProcessEvent(st, work).state, models)
    decreases |work|
  {
    if work != [] {
      CandidateKeepsFidelity(st, work[0], models);
      var o := ProcessCandidate(st, work[0]);
      if o.Done? {
        EventKeepsFidelity(o.state, work[1..], models);
      }
    }
  }

  lemma {:induction false} DrainKeepsFidelity(
    st: Engine, events: seq<Event>, work: Event -> seq<Minted>, models: Models)
    requires Fidelity(st, models)
    ensures Fidelity(DrainEvents(st, events, work), models)
    decreases |events|
  {
    if events != [] {
      EventKeepsFidelity(st, work(events[0]), models);
      var st1 := DrainEvent(st, events[0], work(events[0]));
      SameTextsSameFidelity(ProcessEvent(st, work(events[0])).state, st1.db, models);
      DrainKeepsFidelity(st1, events[1..], work, models);
    }
  }

  // ---- Every run ------------------------------------------------------------

  ghost predicate GenuineOp(op: Op, models: Models, dimOf: string -> nat) {
    IndexInvariant.FaithfulOp(op, dimOf) && (op.OpRestart? ==> Genuine(op.embedder, models))
  }

  lemma StepKeepsFidelity(st: Engine, op: Op, models: Models, dimOf: string -> nat)
    requires Fidelity(st, models) && IndexInvariant.Safe(st, dimOf) && GenuineOp(op, models, dimOf)
    ensures Fidelity(Step(st, op), models)
  {
    match op
    case OpAppend(event) => SameTextsSameFidelity(st, InsertEvent(st.db, event), models);
    case OpDrain(work) => DrainKeepsFidelity(st, EventsAfter(st.db.events, st.db.checkpoint, BATCH_SIZE), work, models);
    case OpAdd(memory, linked) => RememberKeepsFidelity(st, memory, linked, models);
    case OpForget(id, now) =>
      assert ForgetMemory(st, id, now) == Retire(st, id, Rejected, now);
      RetireKeepsFidelity(st, id, Rejected, now, models);
    case OpFeedback(id, kind, now) => SameTextsSameFidelity(st, RecordFeedback(st, id, kind, now).state.db, models);
    case OpResolve(conflict, action, now) => ResolveKeepsFidelity(st, conflict, action, now, models);
    case OpRebuild => RebuildKeepsFidelity(st, models);
    case OpRestart(embedder) => RestartKeepsFidelity(st, embedder, models);
  }

  lemma {:induction false} RunKeepsFidelity(st: Engine, ops: seq<Op>, models: Models, dimOf: string -> nat)
    requires Fidelity(st, models) && IndexInvariant.Safe(st, dimOf)
    requires forall i :: 0 <= i < |ops| ==> GenuineOp(ops[i], models, dimOf)
    ensures Fidelity(Run(st, ops), models)
    decreases |ops|
  {
    if ops != [] {
      IndexInvariant.StepKeepsSafe(st, ops[0], dimOf);
      StepKeepsFidelity(st, ops[0], models, dimOf);
      RunKeepsFidelity(Step(st, ops[0]), ops[1..], models, dimOf);
    }
  }

  /** The point's vector is the live model's embedding of the memory the entry
      stands for, and no other point shares its seq_id. */
  ghost predicate RankedByOwnText(st: Engine, s: nat, i: nat) {
    && s in st.index.side && i < |st.index.graph| && st.index.graph[i].seqId == s
    && st.index.side[s].memoryId in st.db.memories
    && st.embedder.embed(ComposeText(st.db.memories[st.index.side[s].memoryId])) == Some(st.index.graph[i].vector)
    && forall j :: 0 <= j < |st.index.graph| && st.index.graph[j].seqId == s ==> j == i
  }

  /** The headline, from a fresh daemon, whatever fails on the way. */
  lemma LiveEntriesRankedByOwnText(embedder: Embedder, ops: seq<Op>, models: Models, dimOf: string -> nat, s: nat)
    requires IndexInvariant.Faithful(embedder, dimOf) && Genuine(embedder, models)
    requires forall i :: 0 <= i < |ops| ==> GenuineOp(ops[i], models, dimOf)
    requires s in Run(Boot(embedder), ops).index.side
    ensures exists i: nat :: RankedByOwnText(Run(Boot(embedder), ops), s, i)
  {
    var boot := Boot(embedder);
    var st := Run(boot, ops);
    assert boot.index.side == IndexInvariant.Mirror(boot.db.rows, embedder.model);
    IndexInvariant.RunKeepsSafe(boot, ops, dimOf);
    RunKeepsFidelity(boot, ops, models, dimOf);
    assert InGraph(st.index, s);
    var i :| 0 <= i < |st.index.graph| && st.index.graph[i].seqId == s;
    assert PointGenuine(st.index.graph[i], st.db) && RowGenuine(st.db, st.db.rows[s], models);
    assert RankedByOwnText(st, s, i);
  }
}
