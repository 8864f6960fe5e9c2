/** What the runtime's own operations leave behind, field by field. */
module OperationEffects {
  import opened Domain
  import opened Tables
  import opened VectorIndexes
  import opened Engines
  import opened IndexInvariant

  // ---- Adding a memory ------------------------------------------------------

  /** The row of the memory as it is first stored. */
  ghost predicate NewRow(db: Db, db': Db, m: Memory) {
    && db'.memories == db.memories[m.id := m.(supersededBy := None, deletedAt := None)]
    && db'.order == db.order + [m.id]
  }

  /** Every table but memories, links and embeddings is as it was. */
  ghost predicate OtherTablesKept(db: Db, db': Db) {
    && db'.conflicts == db.conflicts && db'.events == db.events
    && db'.checkpoint == db.checkpoint && db'.failures == db.failures
  }

  /** What is embedded: the text, with the fact on a line of its own. */
  predicate Spoken(m: Memory, sentence: string) {
    if m.subj.Some? && m.pred.Some? && m.obj.Some?
    then sentence == m.text + " \n " + m.subj.value + " " + m.pred.value + " " + m.obj.value
    else sentence == m.text
  }

  /** A fresh embedding row and its point in the index, both under the next
      seq_id. */
  ghost predicate Embedded(st: Engine, st': Engine, m: Memory, vector: Vector) {
    && st'.db.rows == st.db.rows[st.db.nextRow := EmbeddingRow(m.id, m.scope, m.kind, st.embedder.model, vector)]
    && st'.db.nextRow == st.db.nextRow + 1
    && st'.index.graph == st.index.graph + [GraphPoint(st.db.nextRow, vector)]
    && st'.index.side == st.index.side[st.db.nextRow := Point(m.id, m.scope, m.kind)]
    && st'.index.nextSeq > st.db.nextRow && st'.index.nextSeq >= st.index.nextSeq
  }

  /** An insert is refused for a taken id or a missing fact, and otherwise writes
      the row, the links and the embedding in that order, up to the one that
      fails. */
  lemma AddEffect(st: Engine, m: Memory, linked: Option<seq<EntityId>>, sentence: string, dimOf: string -> nat)
    requires Safe(st, dimOf) && Spoken(m, sentence)
    ensures var o := Remember(st, m, linked);
            var vector := st.embedder.embed(sentence);
            if m.id in st.db.memories || (m.kind != Episode && (m.subj.None? || m.pred.None? || m.obj.None?)) then
              o == Failed(st, ConstraintViolation)
            else
              && NewRow(st.db, o.state.db, m) && OtherTablesKept(st.db, o.state.db)
              && o.state.db.links
                 == st.db.links + (if linked.None? then {} else set e | e in linked.value :: (m.id, e))
              && (if linked.Some? && vector.Some? then o.Done? && Embedded(st, o.state, m, vector.value)
                  else
                    && o.Failed? && o.error == (if linked.None? then LinkFailed else EmbedFailed)
                    && o.state.db.rows == st.db.rows && o.state.index == st.index)
  {
    assert sentence == ComposeText(m);
    if InsertMemory(st.db, m).Some? {
      forall s | s in st.db.rows
        ensures st.db.rows[s].memoryId != m.id
      {
        assert RowSound(st.db, st.db.rows[s], dimOf);
      }
    }
  }

  // ---- Forgetting and feedback ----------------------------------------------

  /** Forgetting marks one row deleted now, and drops its embedding rows of every
      model and its index entries; the graph keeps its points. */
  lemma ForgetEffect(st: Engine, id: MemoryId, now: int)
    ensures var o := ForgetMemory(st, id, now);
            if id !in st.db.memories then o == Failed(st, NotFound)
            else
              && o.Done? && OtherTablesKept(st.db, o.state.db) && o.state.db.order == st.db.order
              && o.state.db.memories == st.db.memories[id :=
                   st.db.memories[id].(deletedAt := Some(now), updatedAt := now)]
              && o.state.db.links == st.db.links && o.state.db.nextRow == st.db.nextRow
              && (forall s :: s in o.state.db.rows <==> s in st.db.rows && st.db.rows[s].memoryId != id)
              && (forall s :: s in o.state.db.rows ==> o.state.db.rows[s] == st.db.rows[s])
              && (forall s :: s in o.state.index.side <==> s in st.index.side && st.index.side[s].memoryId != id)
              && (forall s :: s in o.state.index.side ==> o.state.index.side[s] == st.index.side[s])
              && o.state.index.graph == st.index.graph && o.state.index.nextSeq == st.index.nextSeq
  {}

  /** By how much each kind of feedback moves the confidence. */
  predicate Moves(kind: Feedback, delta: real) {
    match kind
    case Helpful => delta == 0.05
    case Correct => delta == 0.1
    case Stale => delta == -0.15
    case Wrong => delta == -0.4
  }

  /** The nearest value between zero and one. */
  predicate Nearest(x: real, y: real) {
    0.0 <= y <= 1.0 && (0.0 <= x <= 1.0 ==> y == x) && (x < 0.0 ==> y == 0.0) && (x > 1.0 ==> y == 1.0)
  }

  /** Feedback moves one confidence, within zero and one, and touches nothing else
      but the time of the update. */
  lemma FeedbackEffect(st: Engine, id: MemoryId, kind: Feedback, delta: real, now: int)
    requires Moves(kind, delta)
    ensures var o := RecordFeedback(st, id, kind, now);
            if id !in st.db.memories then o == Failed(st, NotFound)
            else
              && o.Done? && o.state == st.(db := st.db.(memories := o.state.db.memories))
              && o.state.db.memories.Keys == st.db.memories.Keys
              && (forall other :: other in st.db.memories && other != id ==>
                    o.state.db.memories[other] == st.db.memories[other])
              && Nearest(st.db.memories[id].confidence + delta, o.state.db.memories[id].confidence)
              && o.state.db.memories[id]
                 == st.db.memories[id].(confidence := o.state.db.memories[id].confidence, updatedAt := now)
  {}

  // ---- Rebuild and restart --------------------------------------------------

  /** Rows of the live model for listed memories, each with the embedding of what
      is spoken of it, under seq_ids not used before. */
  ghost predicate FreshRows(st: Engine, st': Engine, memories: map<MemoryId, Memory>) {
    forall s :: s in st'.db.rows && s !in st.db.rows ==>
      var row := st'.db.rows[s];
      && s >= st.db.nextRow && row.model == st.embedder.model
      && row.memoryId in memories && Active(memories[row.memoryId])
      && st.embedder.embed(ComposeText(memories[row.memoryId])) == Some(row.vector)
  }

  lemma {:induction false} EmbedAllRows(st: Engine, listed: seq<Memory>, memories: map<MemoryId, Memory>)
    requires forall s :: s in st.db.rows ==> s < st.db.nextRow
    requires forall m :: m in listed ==> m.id in memories && memories[m.id] == m && Active(m)
    ensures var st' := EmbedAll(st, listed).state;
            && FreshRows(st, st', memories) && st'.embedder == st.embedder
            && (forall s :: s in st.db.rows ==> s in st'.db.rows && st'.db.rows[s] == st.db.rows[s])
            && (forall s :: s in st'.db.rows ==> s < st'.db.nextRow) && st.db.nextRow <= st'.db.nextRow
    decreases |listed|
  {
    if listed != [] {
      var o := EmbedAndIndex(st, listed[0]);
      assert listed[0] in listed;
      if o.Done? {
        EmbedAllRows(o.state, listed[1..], memories);
      }
    }
  }

  /** A rebuild keeps no earlier embedding row, of whatever model: what is left
      are rows of the live model for active memories, each with the embedding of
      its memory's text and fact. */
  lemma RebuildEffect(st: Engine, dimOf: string -> nat)
    requires Safe(st, dimOf)
    ensures var st' := Rebuild(st).state;
            forall s :: s in st'.db.rows ==>
              var row := st'.db.rows[s];
              && s >= st.db.nextRow && row.model == st.embedder.model
              && row.memoryId in st.db.memories && Active(st.db.memories[row.memoryId])
              && exists sentence :: Spoken(st.db.memories[row.memoryId], sentence)
                                    && st.embedder.embed(sentence) == Some(row.vector)
  {
    var cleared := st.(db := ClearEmbeddings(st.db), index := EmptyIndex(st.index.dim));
    ListActiveElements(st.db);
    EmbedAllRows(cleared, ListActive(st.db), st.db.memories);
    var st' := Rebuild(st).state;
    forall s | s in st'.db.rows
      ensures exists sentence :: Spoken(st.db.memories[st'.db.rows[s].memoryId], sentence)
                                 && st.embedder.embed(sentence) == Some(st'.db.rows[s].vector)
    {
      assert Spoken(st.db.memories[st'.db.rows[s].memoryId], ComposeText(st.db.memories[st'.db.rows[s].memoryId]));
    }
  }

  lemma {:induction false} LoadRowsGraph(ix: Index, rows: map<nat, EmbeddingRow>, seqIds: seq<nat>)
    requires forall s :: s in seqIds ==> s in rows && |rows[s].vector| == ix.dim
    ensures var ix' := LoadRows(ix, rows, seqIds).0;
            && |ix'.graph| == |ix.graph| + |seqIds| && ix.graph <= ix'.graph
            && forall i :: 0 <= i < |seqIds| ==>
                 ix'.graph[|ix.graph| + i] == GraphPoint(seqIds[i], rows[seqIds[i]].vector)
    decreases |seqIds|
  {
    if seqIds != [] {
      var next := InsertWithSeq(ix, seqIds[0], rows[seqIds[0]].vector, PointOf(rows[seqIds[0]])).value;
      LoadRowsGraph(next, rows, seqIds[1..]);
      var ix' := LoadRows(ix, rows, seqIds).0;
      forall i | 0 <= i < |seqIds|
        ensures ix'.graph[|ix.graph| + i] == GraphPoint(seqIds[i], rows[seqIds[i]].vector)
      {
        if i > 0 {
          assert seqIds[1..][i - 1] == seqIds[i];
        }
      }
    }
  }

  lemma {:induction false} SeqIdsAscend(rows: map<nat, EmbeddingRow>, model: string, bound: nat)
    ensures forall i :: 0 <= i < |SeqIds(rows, model, bound)| ==> SeqIds(rows, model, bound)[i] < bound
    ensures forall i, j :: 0 <= i < j < |SeqIds(rows, model, bound)| ==>
              SeqIds(rows, model, bound)[i] < SeqIds(rows, model, bound)[j]
  {
    if bound > 0 {
      SeqIdsAscend(rows, model, bound - 1);
    }
  }

  /** After a restart the graph holds the live model's stored vectors, each once
      and in seq_id order, and no stale point. */
  lemma RestartEffect(st: Engine, embedder: Embedder, dimOf: string -> nat)
    requires DbSafe(st.db, dimOf) && Faithful(embedder, dimOf)
    ensures var graph := Restart(st, embedder).state.index.graph;
            && (forall i :: 0 <= i < |graph| ==>
                  && graph[i].seqId in st.db.rows && st.db.rows[graph[i].seqId].model == embedder.model
                  && graph[i].vector == st.db.rows[graph[i].seqId].vector)
            && (forall i, j :: 0 <= i < j < |graph| ==> graph[i].seqId < graph[j].seqId)
            && (forall s :: s in st.db.rows && st.db.rows[s].model == embedder.model ==>
                  exists i :: 0 <= i < |graph| && graph[i].seqId == s)
  {
    var seqIds := SeqIds(st.db.rows, embedder.model, st.db.nextRow);
    SeqIdsElements(st.db.rows, embedder.model, st.db.nextRow);
    SeqIdsAscend(st.db.rows, embedder.model, st.db.nextRow);
    forall s | s in seqIds
      ensures s in st.db.rows && |st.db.rows[s].vector| == embedder.dim
    {
      assert RowSound(st.db, st.db.rows[s], dimOf);
    }
    LoadRowsGraph(EmptyIndex(embedder.dim), st.db.rows, seqIds);
    var graph := Restart(st, embedder).state.index.graph;
    assert |graph| == |seqIds| && forall i :: 0 <= i < |seqIds| ==> graph[i].seqId == seqIds[i];
    forall s | s in st.db.rows && st.db.rows[s].model == embedder.model
      ensures exists i :: 0 <= i < |graph| && graph[i].seqId == s
    {
      var i :| 0 <= i < |seqIds| && seqIds[i] == s;
      assert graph[i].seqId == s;
    }
  }

  // ---- Appending an event ---------------------------------------------------

  /** A new event goes to the end of the log; one whose id is known is refused.
      Nothing else changes. */
  lemma AppendEffect(st: Engine, e: Event)
    ensures var st' := Step(st, OpAppend(e));
            if exists known :: known in st.db.events && known.key.id == e.key.id then st' == st
            else st' == st.(db := st.db.(events := st.db.events + [e]))
  {}
}
