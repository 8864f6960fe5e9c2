/** The index invariant: over every run, whatever fails on the way, the side
    table is the image of the embedding rows of the live model and mentions only
    active memories. */
module IndexInvariant {
  import opened Domain
  import opened Sorting
  import opened Tables
  import opened VectorIndexes
  import opened Engines

  /** Vectors have the dimension the embedder's model stands for. */
  ghost predicate Faithful(e: Embedder, dimOf: string -> nat) {
    && e.dim == dimOf(e.model)
    && forall text :: e.embed(text).Some? ==> |e.embed(text).value| == e.dim
  }

  /** Memory rows are keyed by their id and listed once in rowid order. */
  ghost predicate Keyed(db: Db) {
    && NoDuplicates(db.order)
    && (forall id :: id in db.order <==> id in db.memories)
    && (forall id :: id in db.memories ==> db.memories[id].id == id)
  }

  ghost predicate RowSound(db: Db, row: EmbeddingRow, dimOf: string -> nat) {
    && row.memoryId in db.memories
    && Active(db.memories[row.memoryId])
    && row.scope == db.memories[row.memoryId].scope
    && row.kind == db.memories[row.memoryId].kind
    && |row.vector| == dimOf(row.model)
  }

  /** Under every model: each embedding row copies an active memory, no memory
      has two rows, and fresh seq_ids are unused. */
  ghost predicate RowsSafe(db: Db, dimOf: string -> nat) {
    && (forall s :: s in db.rows ==> s < db.nextRow && RowSound(db, db.rows[s], dimOf))
    && (forall s, t :: s in db.rows && t in db.rows && SameSlot(db.rows[s], db.rows[t]) ==> s == t)
  }

  predicate SameSlot(a: EmbeddingRow, b: EmbeddingRow) {
    a.memoryId == b.memoryId && a.model == b.model
  }

  ghost predicate DbSafe(db: Db, dimOf: string -> nat) {
    Keyed(db) && RowsSafe(db, dimOf)
  }

  /** The side table that the rows of one model describe. */
  ghost function Mirror(rows: map<nat, EmbeddingRow>, model: string): map<nat, Point> {
    map s | s in rows && rows[s].model == model :: PointOf(rows[s])
  }

  ghost predicate Safe(st: Engine, dimOf: string -> nat) {
    && Faithful(st.embedder, dimOf)
    && st.index.dim == st.embedder.dim
    && DbSafe(st.db, dimOf)
    && st.index.side == Mirror(st.db.rows, st.embedder.model)
    && (forall s :: s in st.index.side ==> s < st.index.nextSeq)
  }

  ghost predicate Indexed(st: Engine, id: MemoryId) {
    exists s :: s in st.index.side && st.index.side[s].memoryId == id
  }

  /** Every active memory can be found through the index. */
  ghost predicate Complete(st: Engine) {
    forall id :: id in st.db.memories && Active(st.db.memories[id]) ==> Indexed(st, id)
  }

  // ---- One memory -----------------------------------------------------------

  /** A point stored under an unused seq_id indexes its own memory and leaves
      every other memory as it was. */
  lemma FreshPointIndexed(st: Engine, st': Engine, n: nat, p: Point)
    requires n !in st.index.side && st'.index.side == st.index.side[n := p]
    ensures Indexed(st', p.memoryId)
    ensures forall id :: id != p.memoryId ==> (Indexed(st', id) <==> Indexed(st, id))
  {
    assert st'.index.side[n].memoryId == p.memoryId;
    forall id | Indexed(st, id)
      ensures Indexed(st', id)
    {
      var s :| s in st.index.side && st.index.side[s].memoryId == id;
      assert s in st'.index.side && st'.index.side[s].memoryId == id;
    }
  }

  lemma MirrorInsert(db: Db, row: EmbeddingRow)
    requires forall s :: s in db.rows ==> s < db.nextRow
    ensures Mirror(InsertEmbedding(db, row).rows, row.model) == Mirror(db.rows, row.model)[db.nextRow := PointOf(row)]
  {}

  /** Storing and indexing a row for an active memory that has none. */
  lemma IndexFreshRow(st: Engine, row: EmbeddingRow, st': Engine, dimOf: string -> nat)
    requires Safe(st, dimOf)
    requires RowSound(st.db, row, dimOf) && row.model == st.embedder.model
    requires !EmbeddingExists(st.db, row.memoryId, row.model)
    requires st'.db == InsertEmbedding(st.db, row) && st'.embedder == st.embedder
    requires InsertWithSeq(st.index, st.db.nextRow, row.vector, PointOf(row)) == Some(st'.index)
    ensures Safe(st', dimOf)
    ensures Indexed(st', row.memoryId)
    ensures forall id :: id != row.memoryId ==> (Indexed(st', id) <==> Indexed(st, id))
  {
    MirrorInsert(st.db, row);
    FreshPointIndexed(st, st', st.db.nextRow, PointOf(row));
  }

  lemma NotStoredNotIndexed(st: Engine, id: MemoryId, dimOf: string -> nat)
    requires Safe(st, dimOf)
    ensures EmbeddingExists(st.db, id, st.embedder.model) <==> Indexed(st, id)
  {
    if EmbeddingExists(st.db, id, st.embedder.model) {
      var s :| s in st.db.rows && st.db.rows[s].memoryId == id && st.db.rows[s].model == st.embedder.model;
      assert st.index.side[s].memoryId == id;
    }
  }

  lemma EmbedAndIndexKeepsSafe(st: Engine, m: Memory, dimOf: string -> nat)
    requires Safe(st, dimOf)
    requires m.id in st.db.memories && Active(st.db.memories[m.id])
    requires m.scope == st.db.memories[m.id].scope && m.kind == st.db.memories[m.id].kind
    ensures var o := EmbedAndIndex(st, m);
            && Safe(o.state, dimOf)
            && (o.Done? <==> Indexed(o.state, m.id))
            && (o.Done? <==> Indexed(st, m.id) || st.embedder.embed(ComposeText(m)).Some?)
            && (forall id :: id != m.id ==> (Indexed(o.state, id) <==> Indexed(st, id)))
            && o.state.db == st.db.(rows := o.state.db.rows, nextRow := o.state.db.nextRow)
            && o.state.embedder == st.embedder
  {
    NotStoredNotIndexed(st, m.id, dimOf);
    if !EmbeddingExists(st.db, m.id, st.embedder.model) && st.embedder.embed(ComposeText(m)).Some? {
      var row := EmbeddingRow(m.id, m.scope, m.kind, st.embedder.model, st.embedder.embed(ComposeText(m)).value);
      IndexFreshRow(st, row, EmbedAndIndex(st, m).state, dimOf);
    }
  }

  /** Changing one memory's row without touching its scope or kind, and then
      dropping its embeddings, keeps the invariant and touches no other entry. */
  lemma UnindexKeepsSafe(st: Engine, db: Db, id: MemoryId, dimOf: string -> nat)
    requires Safe(st, dimOf)
    requires id in st.db.memories && id in db.memories && db.memories[id].id == id
    requires db == st.db.(memories := st.db.memories[id := db.memories[id]])
    ensures Safe(Unindex(st.(db := db), id), dimOf)
    ensures !Indexed(Unindex(st.(db := db), id), id)
    ensures forall other :: other != id ==> (Indexed(Unindex(st.(db := db), id), other) <==> Indexed(st, other))
  {
    var st' := Unindex(st.(db := db), id);
    assert st'.index.side == Mirror(st'.db.rows, st'.embedder.model);
    forall other | other != id && Indexed(st, other)
      ensures Indexed(st', other)
    {
      var s :| s in st.index.side && st.index.side[s].memoryId == other;
      assert s in st'.index.side && st'.index.side[s].memoryId == other;
    }
  }

  /** A fresh memory is indexed exactly when remembering it succeeds. */
  lemma RememberKeepsSafe(st: Engine, m: Memory, linked: Option<seq<EntityId>>, dimOf: string -> nat)
    requires Safe(st, dimOf)
    ensures Safe(Remember(st, m, linked).state, dimOf)
    ensures forall id :: id != m.id ==> (Indexed(Remember(st, m, linked).state, id) <==> Indexed(st, id))
    ensures InsertMemory(st.db, m).Some? ==>
              (Remember(st, m, linked).Done? <==> Indexed(Remember(st, m, linked).state, m.id))
    ensures InsertMemory(st.db, m).Some? ==>
              (Remember(st, m, linked).Done? <==> linked.Some? && st.embedder.embed(ComposeText(m)).Some?)
    ensures Remember(st, m, linked).state.embedder == st.embedder
  {
    if InsertMemory(st.db, m).Some? {
      var inserted := InsertMemory(st.db, m).value;
      forall s | s in st.db.rows
        ensures RowSound(inserted, st.db.rows[s], dimOf)
      {
        assert RowSound(st.db, st.db.rows[s], dimOf);
      }
      var st1 := st.(db := inserted);
      assert Keyed(inserted);
      assert Safe(st1, dimOf);
      assert !EmbeddingExists(inserted, m.id, st.embedder.model);
      assert !Indexed(st1, m.id);
      if linked.Some? {
        var st2 := st.(db := LinkAll(inserted, m.id, linked.value));
        assert Safe(st2, dimOf) by {
          forall s | s in st.db.rows
            ensures RowSound(st2.db, st.db.rows[s], dimOf)
          {
            assert RowSound(inserted, st.db.rows[s], dimOf);
          }
        }
        EmbedAndIndexKeepsSafe(st2, m, dimOf);
      }
    }
  }

  // ---- Retiring memories ----------------------------------------------------

  lemma RetireKeepsSafe(st: Engine, id: MemoryId, verdict: Verdict, now: int, dimOf: string -> nat)
    requires Safe(st, dimOf)
    ensures Safe(Retire(st, id, verdict, now).state, dimOf)
    ensures Complete(st) ==> Complete(Retire(st, id, verdict, now).state)
    ensures Retire(st, id, verdict, now).state.embedder == st.embedder
  {
    var st' := Retire(st, id, verdict, now).state;
    if verdict != LosesTo(id) && id in st.db.memories {
      var db := match verdict
        case LosesTo(winner) => Supersede(st.db, id, winner, now).value
        case MergedInto(merged) => Supersede(st.db, id, merged, now).value
        case Rejected => SoftDelete(st.db, id, now).value;
      assert db == st.db.(memories := st.db.memories[id := db.memories[id]]);
      UnindexKeepsSafe(st, db, id, dimOf);
      assert st' == Unindex(st.(db := db), id);
      assert !Active(st'.db.memories[id]);
      if Complete(st) {
        forall other | other in st'.db.memories && Active(st'.db.memories[other])
          ensures Indexed(st', other)
        {
          assert Indexed(st, other);
        }
      }
    }
  }

  lemma {:induction false} RetireAllKeepsSafe(
    st: Engine, ids: seq<MemoryId>, verdict: Verdict, now: int, dimOf: string -> nat)
    requires Safe(st, dimOf)
    ensures Safe(RetireAll(st, ids, verdict, now).state, dimOf)
    ensures Complete(st) ==> Complete(RetireAll(st, ids, verdict, now).state)
    ensures RetireAll(st, ids, verdict, now).state.embedder == st.embedder
    decreases |ids|
  {
    if ids != [] {
      RetireKeepsSafe(st, ids[0], verdict, now, dimOf);
      var o := Retire(st, ids[0], verdict, now);
      if o.Done? {
        RetireAllKeepsSafe(o.state, ids[1..], verdict, now, dimOf);
      }
    }
  }

  lemma ForgetKeepsSafe(st: Engine, id: MemoryId, now: int, dimOf: string -> nat)
    requires Safe(st, dimOf)
    ensures Safe(ForgetMemory(st, id, now).state, dimOf)
    ensures Complete(st) ==> Complete(ForgetMemory(st, id, now).state)
  {
    RetireKeepsSafe(st, id, Rejected, now, dimOf);
    assert ForgetMemory(st, id, now) == Retire(st, id, Rejected, now);
  }

  lemma FeedbackKeepsSafe(st: Engine, id: MemoryId, kind: Feedback, now: int, dimOf: string -> nat)
    requires Safe(st, dimOf)
    ensures Safe(RecordFeedback(st, id, kind, now).state, dimOf)
    ensures Complete(st) ==> Complete(RecordFeedback(st, id, kind, now).state)
  {
    var st' := RecordFeedback(st, id, kind, now).state;
    if id in st.db.memories {
      forall s | s in st'.db.rows
        ensures RowSound(st'.db, st'.db.rows[s], dimOf)
      {
        assert RowSound(st.db, st.db.rows[s], dimOf);
      }
      if Complete(st) {
        forall other | other in st'.db.memories && Active(st'.db.memories[other])
          ensures Indexed(st', other)
        {
          assert Indexed(st, other);
        }
      }
    }
  }

  // ---- Remembering ----------------------------------------------------------

  /** What remembering does to the tables other than embeddings and links. */
  lemma RememberTables(st: Engine, m: Memory, linked: Option<seq<EntityId>>)
    ensures var db' := Remember(st, m, linked).state.db;
            && db'.conflicts == st.db.conflicts && db'.events == st.db.events
            && db'.checkpoint == st.db.checkpoint && db'.failures == st.db.failures
            && db'.memories
               == (if InsertMemory(st.db, m).Some? then InsertMemory(st.db, m).value.memories else st.db.memories)
            && db'.order == (if InsertMemory(st.db, m).Some? then InsertMemory(st.db, m).value.order else st.db.order)
    ensures Remember(st, m, linked).state.embedder == st.embedder
  {}

  // ---- Resolution -----------------------------------------------------------

  lemma CloseKeepsSafe(o: Outcome, conflict: ConflictId, resolution: Resolution, now: int, dimOf: string -> nat)
    requires Safe(o.state, dimOf)
    ensures Safe(Close(o, conflict, resolution, now).state, dimOf)
    ensures Complete(o.state) ==> Complete(Close(o, conflict, resolution, now).state)
  {}

  lemma ResolveKeepsSafe(st: Engine, conflict: ConflictId, action: Action, now: int, dimOf: string -> nat)
    requires Safe(st, dimOf)
    ensures Safe(ResolveConflict(st, conflict, action, now).state, dimOf)
  {
    var found := FindConflict(st.db.conflicts, conflict);
    if found.Some? && st.db.conflicts[found.value].resolution == Unresolved {
      var c := st.db.conflicts[found.value];
      match action
      case Pick(winner) =>
        RetireAllKeepsSafe(st, c.members, LosesTo(winner), now, dimOf);
        CloseKeepsSafe(RetireAll(st, c.members, LosesTo(winner), now), conflict, Picked, now, dimOf);
      case RejectAll =>
        RetireAllKeepsSafe(st, c.members, Rejected, now, dimOf);
        CloseKeepsSafe(RetireAll(st, c.members, Rejected, now), conflict, RejectedAll, now, dimOf);
      case Merge(_, _, _, _, _, mergedId, linked) =>
        var m := MergedMemory(st.db, c, action, now);
        var o := Remember(st, m, linked);
        RememberKeepsSafe(st, m, linked, dimOf);
        if o.Done? {
          RetireAllKeepsSafe(o.state, c.members, MergedInto(mergedId), now, dimOf);
          CloseKeepsSafe(RetireAll(o.state, c.members, MergedInto(mergedId), now), conflict, Merged, now, dimOf);
        }
    }
  }

  // ---- Rebuild and reload ---------------------------------------------------

  lemma {:induction false} MemoryRowsElements(memories: map<MemoryId, Memory>, order: seq<MemoryId>)
    ensures forall m :: m in MemoryRows(memories, order) <==>
              exists id :: id in order && id in memories && memories[id] == m
  {
    if order != [] {
      MemoryRowsElements(memories, order[1..]);
      forall m
        ensures m in MemoryRows(memories, order) <==> exists id :: id in order && id in memories && memories[id] == m
      {
        if m in MemoryRows(memories, order[1..]) {
          var id :| id in order[1..] && id in memories && memories[id] == m;
          assert id in order;
        }
        if id :| id in order && id in memories && memories[id] == m {
          assert id == order[0] || id in order[1..];
        }
      }
    }
  }

  /** The listing holds exactly the active memories. */
  lemma ListActiveElements(db: Db)
    requires Keyed(db)
    ensures forall m :: m in ListActive(db) <==> m.id in db.memories && db.memories[m.id] == m && Active(m)
  {
    MemoryRowsElements(db.memories, db.order);
    FilterElements(MemoryRows(db.memories, db.order), Active);
    SortElements(Filter(MemoryRows(db.memories, db.order), Active), NewestFirst);
    forall m
      ensures m in ListActive(db) <==> m.id in db.memories && db.memories[m.id] == m && Active(m)
    {
      assert m in multiset(ListActive(db)) <==> m in multiset(Filter(MemoryRows(db.memories, db.order), Active));
    }
  }

  /** Embedding a list of stored active memories: it stops at the first text the
      embedder refuses. */
  lemma {:induction false} EmbedAllEffect(st: Engine, memories: seq<Memory>, dimOf: string -> nat)
    requires Safe(st, dimOf)
    requires forall m :: m in memories ==> m.id in st.db.memories && st.db.memories[m.id] == m && Active(m)
    ensures var o := EmbedAll(st, memories);
            && Safe(o.state, dimOf)
            && o.state.db == st.db.(rows := o.state.db.rows, nextRow := o.state.db.nextRow)
            && o.state.embedder == st.embedder
            && (forall id :: Indexed(st, id) ==> Indexed(o.state, id))
            && (o.Done? <==> forall m :: m in memories ==> Indexed(o.state, m.id))
            && (o.Done? <==> forall m :: m in memories ==> Indexed(st, m.id) || st.embedder.embed(ComposeText(m)).Some?)
    decreases |memories|
  {
    if memories != [] {
      var m := memories[0];
      EmbedAndIndexKeepsSafe(st, m, dimOf);
      var o := EmbedAndIndex(st, m);
      if o.Done? {
        assert forall n :: n in memories[1..] ==> n in memories;
        EmbedAllEffect(o.state, memories[1..], dimOf);
        assert forall n :: n in memories ==> n == m || n in memories[1..];
        forall n | n in memories[1..]
          ensures (Indexed(o.state, n.id) || st.embedder.embed(ComposeText(n)).Some?)
                  <==> (Indexed(st, n.id) || st.embedder.embed(ComposeText(n)).Some?)
        {
          if n.id == m.id {
            assert n == m;
          }
        }
      } else {
        assert m in memories;
      }
    }
  }

  /** From any safe state, however incomplete, a rebuild succeeds exactly when
      the embedder accepts every active memory, and it yields a complete index
      exactly when it succeeds. Memories and conflicts are untouched. */
  lemma RebuildRestores(st: Engine, dimOf: string -> nat)
    requires Safe(st, dimOf)
    ensures Safe(Rebuild(st).state, dimOf)
    ensures Rebuild(st).Done? <==> Complete(Rebuild(st).state)
    ensures Rebuild(st).Done? <==>
            forall id :: id in st.db.memories && Active(st.db.memories[id]) ==>
                           st.embedder.embed(ComposeText(st.db.memories[id])).Some?
    ensures var db' := Rebuild(st).state.db; db' == st.db.(rows := db'.rows, nextRow := db'.nextRow)
    ensures Rebuild(st).state.embedder == st.embedder
  {
    var cleared := st.(db := ClearEmbeddings(st.db), index := EmptyIndex(st.index.dim));
    assert cleared.index.side == Mirror(cleared.db.rows, st.embedder.model);
    assert Safe(cleared, dimOf);
    var listed := ListActive(st.db);
    ListActiveElements(st.db);
    EmbedAllEffect(cleared, listed, dimOf);
    var o := Rebuild(st);
    assert forall id :: !Indexed(cleared, id);
    if o.Done? {
      forall id | id in st.db.memories && Active(st.db.memories[id])
        ensures Indexed(o.state, id) && st.embedder.embed(ComposeText(st.db.memories[id])).Some?
      {
        assert st.db.memories[id] in listed;
      }
    } else {
      var m :| m in listed && !Indexed(o.state, m.id);
      assert !Complete(o.state);
      var n :| n in listed && st.embedder.embed(ComposeText(n)).None?;
      assert n == st.db.memories[n.id];
    }
  }

  lemma {:induction false} SeqIdsElements(rows: map<nat, EmbeddingRow>, model: string, bound: nat)
    ensures forall s :: s in SeqIds(rows, model, bound) <==> s < bound && s in rows && rows[s].model == model
  {
    if bound > 0 {
      SeqIdsElements(rows, model, bound - 1);
    }
  }

  lemma {:induction false} LoadRowsEffect(ix: Index, rows: map<nat, EmbeddingRow>, seqIds: seq<nat>)
    requires forall s :: s in seqIds ==> s in rows && |rows[s].vector| == ix.dim
    ensures var (ix', ok) := LoadRows(ix, rows, seqIds);
            && ok && ix'.dim == ix.dim && ix'.nextSeq >= ix.nextSeq
            && (forall s :: s in seqIds ==> s < ix'.nextSeq)
            && (forall s :: s in ix'.side <==> s in ix.side || s in seqIds)
            && (forall s :: s in ix'.side ==> ix'.side[s] == if s in seqIds then PointOf(rows[s]) else ix.side[s])
    decreases |seqIds|
  {
    if seqIds != [] {
      var s := seqIds[0];
      var next := InsertWithSeq(ix, s, rows[s].vector, PointOf(rows[s])).value;
      assert forall t :: t in seqIds <==> t == s || t in seqIds[1..];
      LoadRowsEffect(next, rows, seqIds[1..]);
    }
  }

  /** Starting again over the same tables rebuilds exactly the same side table,
      with room above every stored seq_id; nothing is written. */
  lemma RestartReloads(st: Engine, embedder: Embedder, dimOf: string -> nat)
    requires DbSafe(st.db, dimOf) && Faithful(embedder, dimOf)
    ensures Restart(st, embedder).Done?
    ensures Safe(Restart(st, embedder).state, dimOf)
    ensures Restart(st, embedder).state.db == st.db
    ensures Restart(st, embedder).state.embedder == embedder
    ensures Restart(st, embedder).state.index.side == Mirror(st.db.rows, embedder.model)
  {
    var seqIds := SeqIds(st.db.rows, embedder.model, st.db.nextRow);
    SeqIdsElements(st.db.rows, embedder.model, st.db.nextRow);
    forall s | s in seqIds
      ensures s in st.db.rows && |st.db.rows[s].vector| == embedder.dim
    {
      assert RowSound(st.db, st.db.rows[s], dimOf);
    }
    LoadRowsEffect(EmptyIndex(embedder.dim), st.db.rows, seqIds);
    assert Restart(st, embedder).state.index.side == Mirror(st.db.rows, embedder.model);
  }

  // ---- The worker -----------------------------------------------------------

  lemma {:induction false} ExtendAllTables(db: Db, conflict: ConflictId, ids: seq<MemoryId>)
    ensures ExtendAll(db, conflict, ids).0 == db.(conflicts := ExtendAll(db, conflict, ids).0.conflicts)
    decreases |ids|
  {
    if ids != [] && ExtendConflict(db, conflict, ids[0]).Some? {
      ExtendAllTables(ExtendConflict(db, conflict, ids[0]).value, conflict, ids[1..]);
    }
  }

  /** Recording a conflict remembers the candidate and then writes only to the
      conflicts table. */
  lemma RecordConflictTables(st: Engine, w: Minted, competing: seq<Memory>)
    ensures var o := Remember(st, ToMemory(w, ComputeConfidence(w.candidate), false), w.linked);
            var o' := RecordConflict(st, w, competing);
            o'.state == o.state.(db := o.state.db.(conflicts := o'.state.db.conflicts))
  {
    var o := Remember(st, ToMemory(w, ComputeConfidence(w.candidate), false), w.linked);
    var c := w.candidate;
    if o.Done? && c.subj.Some? && c.pred.Some? {
      var found := FindUnresolved(o.state.db.conflicts, c.scope, c.subj.value, c.pred.value);
      if found.Some? {
        ExtendAllTables(o.state.db, o.state.db.conflicts[found.value].id, Ids(competing) + [w.memoryId]);
      }
    }
  }

  /** The row the worker stores for a candidate it does not discard. */
  function WorkerRow(w: Minted): Memory {
    var confidence := ComputeConfidence(w.candidate);
    ToMemory(w, confidence, Decide(w.candidate, confidence).SaveEpisode?)
  }

  /** The worker never trips the schema's CHECK: it stores an episode without a
      fact, or another kind with the candidate's whole fact. */
  lemma WorkerRowPassesCheck(db: Db, w: Minted)
    requires Decide(w.candidate, ComputeConfidence(w.candidate)) != Discard
    ensures var m := WorkerRow(w);
            && (InsertMemory(db, m).None? <==> w.memoryId in db.memories)
            && (m.kind.Episode? <==>
                  w.candidate.kind.Episode? || !HasSpo(w.candidate) || m.confidence < PROMOTE_THRESHOLD)
            && (if m.kind.Episode? then m.subj.None? && m.pred.None? && m.obj.None?
                else m.subj == w.candidate.subj && m.pred == w.candidate.pred && m.obj == w.candidate.obj)
  {}

  /** A candidate nothing contests is stored and indexed exactly when its id is
      new, its links succeed and the embedder takes its text. */
  lemma UncontestedCompletes(st: Engine, w: Minted, dimOf: string -> nat)
    requires Safe(st, dimOf)
    requires var decision := Decide(w.candidate, ComputeConfidence(w.candidate));
             decision == SaveEpisode || (decision == Promote && Detect(st.db, w.candidate) == [])
    ensures var o := ProcessCandidate(st, w);
            && (o.Done? <==> w.memoryId !in st.db.memories && w.linked.Some?
                             && st.embedder.embed(ComposeText(WorkerRow(w))).Some?)
            && (o.Done? ==> Indexed(o.state, w.memoryId))
  {
    WorkerRowPassesCheck(st.db, w);
    RememberKeepsSafe(st, WorkerRow(w), w.linked, dimOf);
  }

  lemma CandidateKeepsSafe(st: Engine, w: Minted, dimOf: string -> nat)
    requires Safe(st, dimOf)
    ensures var st' := ProcessCandidate(st, w).state;
            && Safe(st', dimOf)
            && st'.embedder == st.embedder
  {
    var confidence := ComputeConfidence(w.candidate);
    var decision := Decide(w.candidate, confidence);
    if decision != Discard {
      var m := ToMemory(w, confidence, decision.SaveEpisode?);
      RememberKeepsSafe(st, m, w.linked, dimOf);
      var competing := Detect(st.db, w.candidate);
      if decision.Promote? && competing != [] {
        RecordConflictTables(st, w, competing);
      }
    }
  }

  lemma {:induction false} EventKeepsSafe(st: Engine, work: seq<Minted>, dimOf: string -> nat)
    requires Safe(st, dimOf)
    ensures var st' := ProcessEvent(st, work).state;
            && Safe(st', dimOf)
            && st'.embedder == st.embedder
    decreases |work|
  {
    if work != [] {
      CandidateKeepsSafe(st, work[0], dimOf);
      var o := ProcessCandidate(st, work[0]);
      if o.Done? {
        EventKeepsSafe(o.state, work[1..], dimOf);
      }
    }
  }

  lemma {:induction false} DrainKeepsSafe(
    st: Engine, events: seq<Event>, work: Event -> seq<Minted>, dimOf: string -> nat)
    requires Safe(st, dimOf)
    ensures var st' := DrainEvents(st, events, work);
            && Safe(st', dimOf)
            && st'.embedder == st.embedder
    decreases |events|
  {
    if events != [] {
      EventKeepsSafe(st, work(events[0]), dimOf);
      var st1 := DrainEvent(st, events[0], work(events[0]));
      DrainKeepsSafe(st1, events[1..], work, dimOf);
    }
  }

  // ---- Every run ------------------------------------------------------------

  /** Any embedder a restart brings in gives its model's dimension. */
  ghost predicate FaithfulOp(op: Op, dimOf: string -> nat) {
    op.OpRestart? ==> Faithful(op.embedder, dimOf)
  }

  lemma StepKeepsSafe(st: Engine, op: Op, dimOf: string -> nat)
    requires Safe(st, dimOf) && FaithfulOp(op, dimOf)
    ensures Safe(Step(st, op), dimOf)
  {
    match op
    case OpAppend(event) =>
    case OpDrain(work) =>
      DrainKeepsSafe(st, EventsAfter(st.db.events, st.db.checkpoint, BATCH_SIZE), work, dimOf);
    case OpAdd(memory, linked) => RememberKeepsSafe(st, memory, linked, dimOf);
    case OpForget(id, now) => ForgetKeepsSafe(st, id, now, dimOf);
    case OpFeedback(id, kind, now) => FeedbackKeepsSafe(st, id, kind, now, dimOf);
    case OpResolve(conflict, action, now) => ResolveKeepsSafe(st, conflict, action, now, dimOf);
    case OpRebuild => RebuildRestores(st, dimOf);
    case OpRestart(embedder) => RestartReloads(st, embedder, dimOf);
  }

  /** Over every run, with any failures and any change of embedder, the side
      table mirrors the live model's rows, each memory has at most one row, every
      indexed memory is active, and the next live seq_id is free. */
  lemma {:induction false} RunKeepsSafe(st: Engine, ops: seq<Op>, dimOf: string -> nat)
    requires Safe(st, dimOf)
    requires forall i :: 0 <= i < |ops| ==> FaithfulOp(ops[i], dimOf)
    ensures Safe(Run(st, ops), dimOf)
    decreases |ops|
  {
    if ops != [] {
      StepKeepsSafe(st, ops[0], dimOf);
      RunKeepsSafe(Step(st, ops[0]), ops[1..], dimOf);
    }
  }
}
