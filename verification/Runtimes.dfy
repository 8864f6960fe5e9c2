/** The runtime and its worker in their own form: methods that update the store
    and the index step by step, each shown to compute the engine's function. */
module Runtimes {
  import opened Domain
  import opened Sorting
  import opened Tables
  import opened VectorIndexes
  import E = Engines
  import IndexInvariant
  import opened ReadPath

  type Engine = E.Engine
  type Minted = E.Minted

  function Result(st: Engine, error: Option<Error>): E.Outcome {
    if error.None? then E.Done(st) else E.Failed(st, error.value)
  }

  // ---- The worker leaves the event log alone ---------------------------------

  lemma {:induction false} EventKeepsLog(st: Engine, work: seq<Minted>)
    ensures E.ProcessEvent(st, work).state.db.events == st.db.events
    ensures E.ProcessEvent(st, work).state.db.checkpoint == st.db.checkpoint
    decreases |work|
  {
    if work != [] {
      CandidateKeepsLog(st, work[0]);
      if E.ProcessCandidate(st, work[0]).Done? {
        EventKeepsLog(E.ProcessCandidate(st, work[0]).state, work[1..]);
      }
    }
  }

  lemma CandidateKeepsLog(st: Engine, w: Minted)
    ensures E.ProcessCandidate(st, w).state.db.events == st.db.events
    ensures E.ProcessCandidate(st, w).state.db.checkpoint == st.db.checkpoint
  {
    var confidence := ComputeConfidence(w.candidate);
    var decision := Decide(w.candidate, confidence);
    IndexInvariant.RememberTables(st, E.ToMemory(w, confidence, decision.SaveEpisode?), w.linked);
    IndexInvariant.RecordConflictTables(st, w, E.Detect(st.db, w.candidate));
  }

  lemma {:induction false} DrainKeepsLog(st: Engine, events: seq<Event>, work: Event -> seq<Minted>)
    ensures E.DrainEvents(st, events, work).db.events == st.db.events
    ensures E.DrainEvents(st, events, work).db.checkpoint
            == if events == [] then st.db.checkpoint else Some(events[|events| - 1].key)
    decreases |events|
  {
    if events != [] {
      EventKeepsLog(st, work(events[0]));
      DrainKeepsLog(E.DrainEvent(st, events[0], work(events[0])), events[1..], work);
    }
  }

  // ---- Each drain shortens the queue ----------------------------------------

  lemma {:induction false} FewerAfter(events: seq<Event>, earlier: Option<EventKey>, later: EventKey)
    requires earlier.None? || KeyLess(earlier.value, later)
    ensures CountEventsAfter(events, Some(later)) <= CountEventsAfter(events, earlier)
    ensures (exists e :: e in events && e.key == later) ==>
              CountEventsAfter(events, Some(later)) < CountEventsAfter(events, earlier)
  {
    if events != [] {
      FewerAfter(events[1..], earlier, later);
      assert forall e :: e in events <==> e == events[0] || e in events[1..];
    }
  }

  /** A batch that is not empty leaves strictly fewer events behind the
      checkpoint, and an empty batch means there are none. */
  lemma DrainShrinksQueue(st: Engine, work: Event -> seq<Minted>)
    ensures var batch := EventsAfter(st.db.events, st.db.checkpoint, E.BATCH_SIZE);
            var db' := E.Drain(st, work).db;
            && db'.events == st.db.events
            && (if batch == [] then CountEventsAfter(st.db.events, st.db.checkpoint) == 0 && db' == st.db
                else CountEventsAfter(db'.events, db'.checkpoint) < CountEventsAfter(st.db.events, st.db.checkpoint))
  {
    var waiting := Filter(st.db.events, (e: Event) => After(e, st.db.checkpoint));
    var sorted := Sort(waiting, OldestFirst);
    var batch := EventsAfter(st.db.events, st.db.checkpoint, E.BATCH_SIZE);
    SortElements(waiting, OldestFirst);
    FilterElements(st.db.events, (e: Event) => After(e, st.db.checkpoint));
    DrainKeepsLog(st, batch, work);
    if batch != [] {
      var last := batch[|batch| - 1];
      assert last in sorted;
      assert last in multiset(sorted);
      assert last in waiting;
      FewerAfter(st.db.events, st.db.checkpoint, last.key);
    }
  }

  // ---- Sources of a merged memory -------------------------------------------

  ghost predicate SourceOf(memories: map<MemoryId, Memory>, ids: seq<MemoryId>, e: EventId) {
    exists k :: 0 <= k < |ids| && ids[k] in memories && e in memories[ids[k]].sources
  }

  lemma {:induction false} AddNewUnion(seen: seq<EventId>, more: seq<EventId>)
    requires NoDuplicates(seen)
    ensures NoDuplicates(E.AddNew(seen, more)) && seen <= E.AddNew(seen, more)
    ensures forall e :: e in E.AddNew(seen, more) <==> e in seen || e in more
    decreases |more|
  {
    if more != [] {
      AddNewUnion(if more[0] in seen then seen else seen + [more[0]], more[1..]);
      assert forall e :: e in more <==> e == more[0] || e in more[1..];
    }
  }

  /** Every source event of the memories is kept, once. */
  lemma {:induction false} SourceEventsAreUnion(memories: map<MemoryId, Memory>, ids: seq<MemoryId>, seen: seq<EventId>)
    requires NoDuplicates(seen)
    ensures NoDuplicates(E.SourceEvents(memories, ids, seen)) && seen <= E.SourceEvents(memories, ids, seen)
    ensures forall e :: e in E.SourceEvents(memories, ids, seen) <==> e in seen || SourceOf(memories, ids, e)
    decreases |ids|
  {
    if ids != [] {
      var next := if ids[0] in memories then E.AddNew(seen, memories[ids[0]].sources) else seen;
      if ids[0] in memories {
        AddNewUnion(seen, memories[ids[0]].sources);
      }
      SourceEventsAreUnion(memories, ids[1..], next);
      forall e
        ensures SourceOf(memories, ids, e)
                <==> (ids[0] in memories && e in memories[ids[0]].sources) || SourceOf(memories, ids[1..], e)
      {
        if SourceOf(memories, ids[1..], e) {
          var k :| 0 <= k < |ids[1..]| && ids[1..][k] in memories && e in memories[ids[1..][k]].sources;
          assert ids[k + 1] in memories && e in memories[ids[k + 1]].sources;
        }
        if k :| 0 <= k < |ids| && ids[k] in memories && e in memories[ids[k]].sources {
          if k > 0 {
            assert ids[1..][k - 1] == ids[k];
          }
        }
      }
    }
  }

  // ---- The runtime object ---------------------------------------------------

  class Runtime {
    const store: Store
    const vector: VectorIndex
    const embedder: E.Embedder

    function Snapshot(): Engine
      reads store, vector
    {
      E.Engine(store.Snapshot(), vector.Snapshot(), embedder)
    }

    constructor (embedder: E.Embedder)
      ensures Snapshot() == E.Boot(embedder)
      ensures this.embedder == embedder && fresh(store) && fresh(vector)
    {
      this.store := new Store();
      this.vector := new VectorIndex(embedder.dim);
      this.embedder := embedder;
    }

    constructor Over(store: Store, embedder: E.Embedder)
      ensures this.store == store && this.embedder == embedder && fresh(vector)
      ensures vector.Snapshot() == EmptyIndex(embedder.dim)
    {
      this.store := store;
      this.vector := new VectorIndex(embedder.dim);
      this.embedder := embedder;
    }

    /** Start the daemon over stored tables and load the index from them. */
    static method Open(ghost before: Engine, store: Store, embedder: E.Embedder)
      returns (rt: Runtime, error: Option<Error>)
      requires before.db == store.Snapshot()
      ensures fresh(rt) && fresh(rt.vector) && rt.store == store
      ensures Result(rt.Snapshot(), error) == E.Restart(before, embedder)
    {
      rt := new Runtime.Over(store, embedder);
      error := rt.LoadIndexFromStore();
    }

    method EmbedAndIndex(m: Memory) returns (error: Option<Error>)
      modifies store, vector
      ensures Result(Snapshot(), error) == E.EmbedAndIndex(old(Snapshot()), m)
    {
      if EmbeddingExists(store.Snapshot(), m.id, embedder.model) {
        return None;
      }
      var embedded := embedder.embed(E.ComposeText(m));
      if embedded.None? {
        return Some(EmbedFailed);
      }
      var row := EmbeddingRow(m.id, m.scope, m.kind, embedder.model, embedded.value);
      var seqId := store.InsertEmbeddingRow(row);
      var ok := vector.InsertAt(seqId, embedded.value, E.PointOf(row), k => 0);
      return if ok then None else Some(DimensionMismatch);
    }

    method InsertMemoryAndLinkEntities(m: Memory, linked: Option<seq<EntityId>>) returns (error: Option<Error>)
      modifies store, vector
      ensures Result(Snapshot(), error) == E.Remember(old(Snapshot()), m, linked)
    {
      var ok := store.InsertMemoryRow(m);
      if !ok {
        return Some(ConstraintViolation);
      }
      if linked.None? {
        return Some(LinkFailed);
      }
      ghost var inserted := store.Snapshot();
      var i := 0;
      while i < |linked.value|
        invariant 0 <= i <= |linked.value|
        invariant store.Snapshot() == LinkAll(inserted, m.id, linked.value[..i])
        invariant vector.Snapshot() == old(vector.Snapshot())
      {
        store.LinkMemoryEntity(m.id, linked.value[i]);
        i := i + 1;
      }
      assert linked.value[..i] == linked.value;
      error := EmbedAndIndex(m);
    }

    method ForgetMemory(id: MemoryId, now: int) returns (error: Option<Error>)
      modifies store, vector
      ensures Result(Snapshot(), error) == E.ForgetMemory(old(Snapshot()), id, now)
    {
      var ok := store.SoftDeleteMemory(id, now);
      if !ok {
        return Some(NotFound);
      }
      store.DeleteEmbeddingsForMemory(id);
      vector.ForgetMemory(id);
      return None;
    }

    method RecordFeedback(id: MemoryId, kind: Feedback, now: int) returns (error: Option<Error>)
      modifies store
      ensures Result(Snapshot(), error) == E.RecordFeedback(old(Snapshot()), id, kind, now)
    {
      if id !in store.memories {
        return Some(NotFound);
      }
      var ok := store.UpdateMemoryConfidence(id, ApplyFeedback(store.memories[id].confidence, kind), now);
      return None;
    }

    method Retire(id: MemoryId, verdict: E.Verdict, now: int) returns (error: Option<Error>)
      modifies store, vector
      ensures Result(Snapshot(), error) == E.Retire(old(Snapshot()), id, verdict, now)
    {
      if verdict == E.LosesTo(id) {
        return None;
      }
      var ok;
      match verdict {
        case LosesTo(winner) => ok := store.SupersedeMemory(id, winner, now);
        case MergedInto(merged) => ok := store.SupersedeMemory(id, merged, now);
        case Rejected => ok := store.SoftDeleteMemory(id, now);
      }
      if !ok {
        return Some(NotFound);
      }
      store.DeleteEmbeddingsForMemory(id);
      vector.ForgetMemory(id);
      return None;
    }

    /** The loop over a conflict's competing memories. */
    method RetireCompeting(ids: seq<MemoryId>, verdict: E.Verdict, now: int) returns (error: Option<Error>)
      modifies store, vector
      ensures Result(Snapshot(), error) == E.RetireAll(old(Snapshot()), ids, verdict, now)
    {
      var i := 0;
      while i < |ids|
        invariant 0 <= i <= |ids|
        invariant E.RetireAll(Snapshot(), ids[i..], verdict, now) == E.RetireAll(old(Snapshot()), ids, verdict, now)
      {
        assert ids[i..][1..] == ids[i + 1..];
        error := Retire(ids[i], verdict, now);
        if error.Some? {
          return;
        }
        i := i + 1;
      }
      return None;
    }

    /** The source events of the given memories, each once, in the order first
        seen. */
    method CollectSourceEvents(ids: seq<MemoryId>) returns (out: seq<EventId>)
      ensures out == E.SourceEvents(store.memories, ids, [])
      ensures NoDuplicates(out)
      ensures forall e :: e in out <==> SourceOf(store.memories, ids, e)
    {
      out := [];
      var seen: set<EventId> := {};
      var i := 0;
      while i < |ids|
        invariant 0 <= i <= |ids|
        invariant forall e :: e in seen <==> e in out
        invariant E.SourceEvents(store.memories, ids[i..], out) == E.SourceEvents(store.memories, ids, [])
      {
        assert ids[i..][1..] == ids[i + 1..];
        if ids[i] in store.memories {
          ghost var before := out;
          var events := store.memories[ids[i]].sources;
          var j := 0;
          while j < |events|
            invariant 0 <= j <= |events|
            invariant forall e :: e in seen <==> e in out
            invariant E.AddNew(out, events[j..]) == E.AddNew(before, events)
          {
            assert events[j..][1..] == events[j + 1..];
            if events[j] !in seen {
              seen := seen + {events[j]};
              out := out + [events[j]];
            }
            j := j + 1;
          }
        }
        i := i + 1;
      }
      SourceEventsAreUnion(store.memories, ids, []);
    }

    method CloseConflict(conflict: ConflictId, resolution: Resolution, now: int) returns (error: Option<Error>)
      modifies store
      ensures Result(Snapshot(), error) == E.Close(E.Done(old(Snapshot())), conflict, resolution, now)
    {
      var ok := store.ResolveConflictRow(conflict, resolution, now);
      return if ok then None else Some(NotFound);
    }

    method ResolveConflict(conflict: ConflictId, action: E.Action, now: int) returns (error: Option<Error>)
      modifies store, vector
      ensures Result(Snapshot(), error) == E.ResolveConflict(old(Snapshot()), conflict, action, now)
    {
      var found := FindConflict(store.conflicts, conflict);
      if found.None? {
        return Some(NotFound);
      }
      var c := store.conflicts[found.value];
      if c.resolution != Unresolved {
        return Some(AlreadyResolved);
      }
      match action
      case Pick(winner) =>
        if winner !in c.members {
          return Some(InvalidInput);
        }
        error := RetireCompeting(c.members, E.LosesTo(winner), now);
        if error.None? {
          error := CloseConflict(conflict, Picked, now);
        }
      case Merge(_, _, _, _, confidence, mergedId, linked) =>
        var sources := CollectSourceEvents(c.members);
        var merged := Memory(mergedId, Claim, c.scope, action.text,
                             E.Or(action.subj, c.subj), E.Or(action.pred, c.pred), E.Or(action.obj, Some(action.text)),
                             if confidence.Some? then confidence.value else 0.95, sources, now, now, None, None);
        error := InsertMemoryAndLinkEntities(merged, linked);
        if error.None? {
          error := RetireCompeting(c.members, E.MergedInto(mergedId), now);
          if error.None? {
            error := CloseConflict(conflict, Merged, now);
          }
        }
      case RejectAll =>
        error := RetireCompeting(c.members, E.Rejected, now);
        if error.None? {
          error := CloseConflict(conflict, RejectedAll, now);
        }
    }

    method RebuildIndexes() returns (error: Option<Error>)
      modifies store, vector
      ensures Result(Snapshot(), error) == E.Rebuild(old(Snapshot()))
    {
      store.ClearEmbeddingRows();
      vector.Clear();
      var memories := ListActive(store.Snapshot());
      var i := 0;
      while i < |memories|
        invariant 0 <= i <= |memories|
        invariant E.EmbedAll(Snapshot(), memories[i..]) == E.Rebuild(old(Snapshot()))
      {
        assert memories[i..][1..] == memories[i + 1..];
        error := EmbedAndIndex(memories[i]);
        if error.Some? {
          return;
        }
        i := i + 1;
      }
      return None;
    }

    method LoadIndexFromStore() returns (error: Option<Error>)
      modifies vector
      ensures Result(Snapshot(), error) == E.LoadIndex(old(Snapshot()))
    {
      var seqIds := SeqIds(store.rows, embedder.model, store.nextRow);
      vector.Clear();
      var i := 0;
      while i < |seqIds|
        invariant 0 <= i <= |seqIds|
        invariant E.LoadRows(vector.Snapshot(), store.rows, seqIds[i..])
                  == E.LoadRows(EmptyIndex(vector.dim), store.rows, seqIds)
        invariant unchanged(store)
      {
        assert seqIds[i..][1..] == seqIds[i + 1..];
        if seqIds[i] in store.rows {
          var row := store.rows[seqIds[i]];
          var ok := vector.InsertAt(seqIds[i], row.vector, E.PointOf(row), k => 0);
          if !ok {
            return Some(DimensionMismatch);
          }
        }
        i := i + 1;
      }
      return None;
    }

    // ---- The worker ---------------------------------------------------------

    method RecordConflict(w: Minted, competing: seq<Memory>) returns (error: Option<Error>)
      modifies store, vector
      ensures Result(Snapshot(), error) == E.RecordConflict(old(Snapshot()), w, competing)
    {
      var c := w.candidate;
      error := InsertMemoryAndLinkEntities(E.ToMemory(w, ComputeConfidence(c), false), w.linked);
      if error.Some? || c.subj.None? || c.pred.None? {
        return;
      }
      var found := store.FindUnresolvedConflictForSpo(c.scope, c.subj.value, c.pred.value);
      if found.Some? {
        var existing := store.conflicts[found.value].id;
        error := ExtendConflict(existing, E.Ids(competing) + [w.memoryId]);
      } else {
        var ok := store.InsertConflictRow(E.NewConflict(w, competing));
        error := if ok then None else Some(ConstraintViolation);
      }
    }

    method ExtendConflict(conflict: ConflictId, ids: seq<MemoryId>) returns (error: Option<Error>)
      modifies store
      ensures vector.Snapshot() == old(vector.Snapshot())
      ensures (store.Snapshot(), error.None?) == E.ExtendAll(old(store.Snapshot()), conflict, ids)
      ensures error.Some? ==> error.value == NotFound
    {
      var i := 0;
      while i < |ids|
        invariant 0 <= i <= |ids|
        invariant E.ExtendAll(store.Snapshot(), conflict, ids[i..]) == E.ExtendAll(old(store.Snapshot()), conflict, ids)
      {
        assert ids[i..][1..] == ids[i + 1..];
        var ok := store.ExtendConflictRow(conflict, ids[i]);
        if !ok {
          return Some(NotFound);
        }
        i := i + 1;
      }
      return None;
    }

    method ProcessCandidate(w: Minted) returns (error: Option<Error>)
      modifies store, vector
      ensures Result(Snapshot(), error) == E.ProcessCandidate(old(Snapshot()), w)
    {
      var confidence := ComputeConfidence(w.candidate);
      match Decide(w.candidate, confidence)
      case Discard => return None;
      case SaveEpisode =>
        error := InsertMemoryAndLinkEntities(E.ToMemory(w, confidence, true), w.linked);
      case Promote =>
        var competing := E.Detect(store.Snapshot(), w.candidate);
        if competing != [] {
          error := RecordConflict(w, competing);
        } else {
          error := InsertMemoryAndLinkEntities(E.ToMemory(w, confidence, false), w.linked);
        }
    }

    method ProcessEvent(work: seq<Minted>) returns (error: Option<Error>)
      modifies store, vector
      ensures Result(Snapshot(), error) == E.ProcessEvent(old(Snapshot()), work)
    {
      var i := 0;
      while i < |work|
        invariant 0 <= i <= |work|
        invariant E.ProcessEvent(Snapshot(), work[i..]) == E.ProcessEvent(old(Snapshot()), work)
      {
        assert work[i..][1..] == work[i + 1..];
        error := ProcessCandidate(work[i]);
        if error.Some? {
          return;
        }
        i := i + 1;
      }
      return None;
    }

    /** One batch of events past the checkpoint. */
    method DrainOnce(work: Event -> seq<Minted>) returns (count: nat)
      modifies store, vector
      ensures Snapshot() == E.Drain(old(Snapshot()), work)
      ensures count == |EventsAfter(old(store.events), old(store.checkpoint), E.BATCH_SIZE)|
    {
      var events := EventsAfter(store.events, store.checkpoint, E.BATCH_SIZE);
      var i := 0;
      while i < |events|
        invariant 0 <= i <= |events|
        invariant E.DrainEvents(Snapshot(), events[i..], work) == E.DrainEvents(old(Snapshot()), events, work)
      {
        assert events[i..][1..] == events[i + 1..];
        var error := ProcessEvent(work(events[i]));
        if error.Some? {
          store.RecordWorkerFailure(events[i].key.id, error.value);
        }
        assert error.None? ==> store.failures == store.failures + [];
        store.SetWorkerCheckpoint(events[i].key);
        i := i + 1;
      }
      return |events|;
    }

    /** Drain until a batch comes back empty: it terminates with no event behind
        the checkpoint. */
    method DrainUntilIdle(work: Event -> seq<Minted>)
      modifies store, vector
      ensures store.events == old(store.events)
      ensures CountEventsAfter(store.events, store.checkpoint) == 0
    {
      var processed := 1;
      while processed != 0
        invariant store.events == old(store.events)
        invariant processed == 0 ==> CountEventsAfter(store.events, store.checkpoint) == 0
        decreases CountEventsAfter(store.events, store.checkpoint), processed
      {
        DrainShrinksQueue(Snapshot(), work);
        processed := DrainOnce(work);
      }
    }

    // ---- The read path ------------------------------------------------------

    method EntityAnchored(anchors: seq<EntityId>, scopes: Scope) returns (hits: seq<Memory>)
      ensures hits == ReadPath.EntityAnchored(store.Snapshot(), anchors, scopes, [])
    {
      hits := [];
      var i := 0;
      while i < |anchors|
        invariant 0 <= i <= |anchors|
        invariant ReadPath.EntityAnchored(store.Snapshot(), anchors[i..], scopes, hits)
                  == ReadPath.EntityAnchored(store.Snapshot(), anchors, scopes, [])
      {
        assert anchors[i..][1..] == anchors[i + 1..];
        hits := AddUnseen(hits, MemoriesForEntity(store.Snapshot(), anchors[i], scopes, ENTITY_PER_HIT_LIMIT));
        i := i + 1;
      }
    }

    method MergeHits(hits: seq<IndexHit>, scopes: Scope) returns (items: map<MemoryId, WorkItem>)
      ensures items == MergeVector(map[], hits, scopes, store.memories)
    {
      items := map[];
      var i := 0;
      while i < |hits|
        invariant 0 <= i <= |hits|
        invariant MergeVector(items, hits[i..], scopes, store.memories)
                  == MergeVector(map[], hits, scopes, store.memories)
      {
        assert hits[i..][1..] == hits[i + 1..];
        var h := hits[i];
        if Intersects(scopes, h.scope) && h.memoryId in store.memories {
          var m := store.memories[h.memoryId];
          var w := ItemFor(items, m);
          items := items[m.id :=
            w.(sources := w.sources + {FromVector}, similarity := Some(Better(w.similarity, h.similarity)))];
        }
        i := i + 1;
      }
    }

    method MergeMemories(before: map<MemoryId, WorkItem>, listed: seq<Memory>, scopes: Scope, source: Source)
      returns (items: map<MemoryId, WorkItem>)
      ensures items == MergeListed(before, listed, scopes, source)
    {
      items := before;
      var i := 0;
      while i < |listed|
        invariant 0 <= i <= |listed|
        invariant MergeListed(items, listed[i..], scopes, source) == MergeListed(before, listed, scopes, source)
      {
        assert listed[i..][1..] == listed[i + 1..];
        var m := listed[i];
        if Intersects(scopes, m.scope) {
          var w := ItemFor(items, m);
          items := items[m.id :=
            w.(sources := w.sources + {source}, entityMatch := w.entityMatch || source == FromEntity)];
        }
        i := i + 1;
      }
    }

    /** Walk the merged items in whatever order the map yields them. */
    method WalkItems(items: map<MemoryId, WorkItem>) returns (walk: seq<MemoryId>)
      ensures Walks(walk, items)
    {
      walk := [];
      var pending := items.Keys;
      while pending != {}
        invariant NoDuplicates(walk)
        invariant pending <= items.Keys
        invariant forall id :: id in walk <==> id in items && id !in pending
        decreases |pending|
      {
        var id :| id in pending;
        walk := walk + [id];
        pending := pending - {id};
      }
    }

    method AllocateBucket(items: seq<Scored>, lens: Lens, kind: MemoryKind, total: nat)
      returns (taken: seq<Memory>, report: seq<Entry>)
      ensures var kept := items[..Fill(items, 0, 0, lens.maxPerKind, BudgetFor(lens, kind, total))];
              taken == MemoriesOf(kept) && report == EntriesOf(kept, kind)
    {
      var budget := BudgetFor(lens, kind, total);
      taken, report := [], [];
      var consumed, i := 0, 0;
      assert items[..0] == [];
      while i < |items|
        invariant 0 <= i <= |items| && |taken| == i
        invariant taken == MemoriesOf(items[..i]) && report == EntriesOf(items[..i], kind)
        invariant i + Fill(items[i..], i, consumed, lens.maxPerKind, budget)
                  == Fill(items, 0, 0, lens.maxPerKind, budget)
      {
        if |taken| >= lens.maxPerKind {
          return;
        }
        var tokens := TokensOf(items[i].item.memory.text);
        if consumed + tokens > budget && taken != [] {
          return;
        }
        assert items[i..][1..] == items[i + 1..];
        assert items[..i + 1] == items[..i] + [items[i]];
        MemoriesOfSnoc(items[..i], items[i]);
        EntriesOfSnoc(items[..i], items[i], kind);
        consumed := consumed + tokens;
        report := report + [EntryOf(items[i], kind)];
        taken := taken + [items[i].item.memory];
        i := i + 1;
      }
    }

    method MergeSources(req: Request) returns (items: map<MemoryId, WorkItem>)
      ensures items == MergedItems(store.Snapshot(), vector.Snapshot(), req)
    {
      var scopes := ExpandInherited(req.scope);
      items := MergeHits(Search(vector.Snapshot(), req.neighbours), scopes);
      var anchored := EntityAnchored(req.anchors, scopes);
      items := MergeMemories(items, anchored, scopes, FromEntity);
      items := MergeMemories(items, RecentInScope(store.Snapshot(), scopes, RECENT_WINDOW), scopes, FromRecent);
    }

    method AssemblePackage(ranked: seq<Scored>, req: Request) returns (package: Package, report: seq<Entry>)
      ensures (package, report) == Assemble(store.Snapshot(), ranked, req)
    {
      var claims, claimsReport := AllocateBucket(Bucket(ranked, Claim), req.lens, Claim, req.tokenBudget);
      var decisions, decisionsReport := AllocateBucket(Bucket(ranked, Decision), req.lens, Decision, req.tokenBudget);
      var preferences, preferencesReport :=
        AllocateBucket(Bucket(ranked, Preference), req.lens, Preference, req.tokenBudget);
      var episodes, episodesReport := AllocateBucket(Bucket(ranked, Episode), req.lens, Episode, req.tokenBudget);
      package := Package(ExpandInherited(req.scope), claims, decisions, preferences, episodes,
                         OpenConflicts(store.conflicts, ExpandInherited(req.scope)),
                         SumTokens(claims) + SumTokens(decisions) + SumTokens(preferences) + SumTokens(episodes));
      report := claimsReport + decisionsReport + preferencesReport + episodesReport;
    }

    /** The package this call returns is the engine's package for the order in
        which it happened to walk the merged items. */
    method ReadContext(req: Request, scoring: Scoring, decay: Decay) returns (package: Package, report: seq<Entry>)
      ensures exists walk ::
                && Walks(walk, MergedItems(store.Snapshot(), vector.Snapshot(), req))
                && (package, report)
                   == ReadPath.ReadContext(store.Snapshot(), vector.Snapshot(), req, scoring, decay, walk)
    {
      var items := MergeSources(req);
      var walk := WalkItems(items);
      package, report := AssemblePackage(Sort(ScoreAll(items, walk, req, scoring, decay), BestFirst), req);
      assert (package, report) == ReadPath.ReadContext(store.Snapshot(), vector.Snapshot(), req, scoring, decay, walk);
    }
  }

  lemma {:induction false} MemoriesOfSnoc(items: seq<Scored>, x: Scored)
    ensures MemoriesOf(items + [x]) == MemoriesOf(items) + [x.item.memory]
  {
    if items != [] {
      MemoriesOfSnoc(items[1..], x);
      assert (items + [x])[1..] == items[1..] + [x];
    }
  }

  lemma {:induction false} EntriesOfSnoc(items: seq<Scored>, x: Scored, kind: MemoryKind)
    ensures EntriesOf(items + [x], kind) == EntriesOf(items, kind) + [EntryOf(x, kind)]
  {
    if items != [] {
      EntriesOfSnoc(items[1..], x, kind);
      assert (items + [x])[1..] == items[1..] + [x];
    }
  }
}
