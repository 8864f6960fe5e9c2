/** The memory engine as a state machine: every public operation of the runtime
    and every step of its worker as a total function on the stored tables, the
    index and the embedder. An operation that fails keeps what it already wrote. */
module Engines {
  import opened Domain
  import opened Sorting
  import opened Tables
  import opened VectorIndexes

  /** A sentence embedder; None is an embedding error. */
  datatype Embedder = Embedder(model: string, dim: nat, embed: string -> Option<Vector>)

  datatype Engine = Engine(db: Db, index: Index, embedder: Embedder)

  datatype Outcome =
    | Done(state: Engine)
    | Failed(state: Engine, error: Error)

  function Boot(embedder: Embedder): Engine {
    Engine(EMPTY_DB, EmptyIndex(embedder.dim), embedder)
  }

  // ---- Indexing one memory --------------------------------------------------

  function ComposeText(m: Memory): string {
    if m.subj.Some? && m.pred.Some? && m.obj.Some?
    then m.text + " \n " + m.subj.value + " " + m.pred.value + " " + m.obj.value
    else m.text
  }

  function PointOf(row: EmbeddingRow): Point {
    Point(row.memoryId, row.scope, row.kind)
  }

  function EmbedAndIndex(st: Engine, m: Memory): Outcome {
    if EmbeddingExists(st.db, m.id, st.embedder.model) then Done(st)
    else match st.embedder.embed(ComposeText(m))
      case None => Failed(st, EmbedFailed)
      case Some(vector) =>
        var row := EmbeddingRow(m.id, m.scope, m.kind, st.embedder.model, vector);
        var stored := st.(db := InsertEmbedding(st.db, row));
        match InsertWithSeq(st.index, st.db.nextRow, vector, PointOf(row))
        case None => Failed(stored, DimensionMismatch)
        case Some(index) => Done(stored.(index := index))
  }

  /** Insert a memory, link the entities the resolver found (None when the
      resolver failed), then embed and index it. */
  function Remember(st: Engine, m: Memory, linked: Option<seq<EntityId>>): Outcome {
    match InsertMemory(st.db, m)
    case None => Failed(st, ConstraintViolation)
    case Some(inserted) =>
      match linked
      case None => Failed(st.(db := inserted), LinkFailed)
      case Some(entities) => EmbedAndIndex(st.(db := LinkAll(inserted, m.id, entities)), m)
  }

  /** Drop a memory's embedding rows and its index entries. */
  function Unindex(st: Engine, id: MemoryId): Engine {
    st.(db := DeleteEmbeddings(st.db, id), index := Forget(st.index, id))
  }

  // ---- User operations ------------------------------------------------------

  function ForgetMemory(st: Engine, id: MemoryId, now: int): Outcome {
    match SoftDelete(st.db, id, now)
    case None => Failed(st, NotFound)
    case Some(db) => Done(Unindex(st.(db := db), id))
  }

  function RecordFeedback(st: Engine, id: MemoryId, kind: Feedback, now: int): Outcome {
    if id !in st.db.memories then Failed(st, NotFound)
    else Done(st.(db := UpdateConfidence(st.db, id, ApplyFeedback(st.db.memories[id].confidence, kind), now).value))
  }

  datatype Action =
    | Pick(winner: MemoryId)
    | Merge(text: string, subj: Option<string>, pred: Option<string>, obj: Option<string>,
            confidence: Option<real>, mergedId: MemoryId, linked: Option<seq<EntityId>>)
    | RejectAll

  /** What resolution does to each competing memory. */
  datatype Verdict = LosesTo(winner: MemoryId) | MergedInto(merged: MemoryId) | Rejected

  function Retire(st: Engine, id: MemoryId, verdict: Verdict, now: int): Outcome {
    if verdict == LosesTo(id) then Done(st)
    else
      match (match verdict
             case LosesTo(winner) => Supersede(st.db, id, winner, now)
             case MergedInto(merged) => Supersede(st.db, id, merged, now)
             case Rejected => SoftDelete(st.db, id, now))
      case None => Failed(st, NotFound)
      case Some(db) => Done(Unindex(st.(db := db), id))
  }

  function RetireAll(st: Engine, ids: seq<MemoryId>, verdict: Verdict, now: int): Outcome
    decreases |ids|
  {
    if ids == [] then Done(st)
    else match Retire(st, ids[0], verdict, now)
      case Failed(_, _) => Retire(st, ids[0], verdict, now)
      case Done(next) => RetireAll(next, ids[1..], verdict, now)
  }

  function SourceEvents(memories: map<MemoryId, Memory>, ids: seq<MemoryId>, seen: seq<EventId>): seq<EventId> {
    if ids == [] then seen
    else SourceEvents(memories, ids[1..],
                      if ids[0] in memories then AddNew(seen, memories[ids[0]].sources) else seen)
  }

  function AddNew(seen: seq<EventId>, more: seq<EventId>): seq<EventId>
    decreases |more|
  {
    if more == [] then seen
    else AddNew(if more[0] in seen then seen else seen + [more[0]], more[1..])
  }

  function Or<T>(a: Option<T>, b: Option<T>): Option<T> {
    if a.Some? then a else b
  }

  function MergedMemory(db: Db, c: Conflict, a: Action, now: int): Memory
    requires a.Merge?
  {
    Memory(a.mergedId, Claim, c.scope, a.text, Or(a.subj, c.subj), Or(a.pred, c.pred), Or(a.obj, Some(a.text)),
           if a.confidence.Some? then a.confidence.value else 0.95,
           SourceEvents(db.memories, c.members, []), now, now, None, None)
  }

  function Close(o: Outcome, conflict: ConflictId, resolution: Resolution, now: int): Outcome {
    if o.Failed? then o
    else match MarkResolved(o.state.db, conflict, resolution, now)
      case None => Failed(o.state, NotFound)
      case Some(db) => Done(o.state.(db := db))
  }

  function ResolveConflict(st: Engine, conflict: ConflictId, action: Action, now: int): Outcome {
    match FindConflict(st.db.conflicts, conflict)
    case None => Failed(st, NotFound)
    case Some(k) =>
      var c := st.db.conflicts[k];
      if c.resolution != Unresolved then Failed(st, AlreadyResolved)
      else match action
        case Pick(winner) =>
          if winner !in c.members then Failed(st, InvalidInput)
          else Close(RetireAll(st, c.members, LosesTo(winner), now), conflict, Picked, now)
        case Merge(_, _, _, _, _, mergedId, linked) =>
          var o := Remember(st, MergedMemory(st.db, c, action, now), linked);
          if o.Failed? then o
          else Close(RetireAll(o.state, c.members, MergedInto(mergedId), now), conflict, Merged, now)
        case RejectAll =>
          Close(RetireAll(st, c.members, Rejected, now), conflict, RejectedAll, now)
  }

  // ---- Rebuild and reload ---------------------------------------------------

  function EmbedAll(st: Engine, memories: seq<Memory>): Outcome
    decreases |memories|
  {
    if memories == [] then Done(st)
    else match EmbedAndIndex(st, memories[0])
      case Failed(_, _) => EmbedAndIndex(st, memories[0])
      case Done(next) => EmbedAll(next, memories[1..])
  }

  function Rebuild(st: Engine): Outcome {
    EmbedAll(st.(db := ClearEmbeddings(st.db), index := EmptyIndex(st.index.dim)), ListActive(st.db))
  }

  function LoadRows(ix: Index, rows: map<nat, EmbeddingRow>, seqIds: seq<nat>): (Index, bool)
    decreases |seqIds|
  {
    if seqIds == [] then (ix, true)
    else if seqIds[0] !in rows then LoadRows(ix, rows, seqIds[1..])
    else match InsertWithSeq(ix, seqIds[0], rows[seqIds[0]].vector, PointOf(rows[seqIds[0]]))
      case None => (ix, false)
      case Some(next) => LoadRows(next, rows, seqIds[1..])
  }

  function LoadIndex(st: Engine): Outcome {
    var (index, ok) :=
      LoadRows(EmptyIndex(st.index.dim), st.db.rows, SeqIds(st.db.rows, st.embedder.model, st.db.nextRow));
    if ok then Done(st.(index := index)) else Failed(st.(index := index), DimensionMismatch)
  }

  /** The daemon starts again over the same tables, perhaps with another
      embedder. */
  function Restart(st: Engine, embedder: Embedder): Outcome {
    LoadIndex(Engine(st.db, EmptyIndex(embedder.dim), embedder))
  }

  // ---- The worker -----------------------------------------------------------

  /** A candidate with the ids and clock reading minted while processing it, and
      the resolver's answer for it. */
  datatype Minted = Minted(
    candidate: Candidate, memoryId: MemoryId, conflictId: ConflictId, now: int, linked: Option<seq<EntityId>>)

  function ToMemory(w: Minted, confidence: real, forceEpisode: bool): Memory {
    var c := w.candidate;
    var blank := forceEpisode || c.kind.Episode?;
    Memory(w.memoryId, if forceEpisode then Episode else c.kind, c.scope, c.text,
           if blank then None else c.subj, if blank then None else c.pred, if blank then None else c.obj,
           confidence, c.sources, w.now, w.now, None, None)
  }

  /** The active memories that say something else about the candidate's subject
      and predicate. */
  function Detect(db: Db, c: Candidate): seq<Memory> {
    if !HasSpo(c) then []
    else
      Filter(FindActiveBySubjectPredicate(db, c.scope, c.subj.value, c.pred.value), (m: Memory) => m.obj != c.obj)
  }

  function ExtendAll(db: Db, conflict: ConflictId, ids: seq<MemoryId>): (Db, bool)
    decreases |ids|
  {
    if ids == [] then (db, true)
    else match ExtendConflict(db, conflict, ids[0])
      case None => (db, false)
      case Some(next) => ExtendAll(next, conflict, ids[1..])
  }

  function Ids(memories: seq<Memory>): seq<MemoryId> {
    if memories == [] then [] else [memories[0].id] + Ids(memories[1..])
  }

  function NewConflict(w: Minted, competing: seq<Memory>): Conflict {
    Conflict(w.conflictId, w.candidate.scope, w.candidate.subj, w.candidate.pred,
             Ids(competing) + [w.memoryId], Unresolved, w.now, None)
  }

  function RecordConflict(st: Engine, w: Minted, competing: seq<Memory>): Outcome {
    var o := Remember(st, ToMemory(w, ComputeConfidence(w.candidate), false), w.linked);
    var c := w.candidate;
    if o.Failed? || c.subj.None? || c.pred.None? then o
    else match FindUnresolved(o.state.db.conflicts, c.scope, c.subj.value, c.pred.value)
      case Some(k) =>
        var (db, ok) := ExtendAll(o.state.db, o.state.db.conflicts[k].id, Ids(competing) + [w.memoryId]);
        if ok then Done(o.state.(db := db)) else Failed(o.state.(db := db), NotFound)
      case None =>
        match InsertConflict(o.state.db, NewConflict(w, competing))
        case None => Failed(o.state, ConstraintViolation)
        case Some(db) => Done(o.state.(db := db))
  }

  function ProcessCandidate(st: Engine, w: Minted): Outcome {
    var confidence := ComputeConfidence(w.candidate);
    match Decide(w.candidate, confidence)
    case Discard => Done(st)
    case SaveEpisode => Remember(st, ToMemory(w, confidence, true), w.linked)
    case Promote =>
      var competing := Detect(st.db, w.candidate);
      if competing != [] then RecordConflict(st, w, competing)
      else Remember(st, ToMemory(w, confidence, false), w.linked)
  }

  function ProcessEvent(st: Engine, work: seq<Minted>): Outcome
    decreases |work|
  {
    if work == [] then Done(st)
    else match ProcessCandidate(st, work[0])
      case Failed(_, _) => ProcessCandidate(st, work[0])
      case Done(next) => ProcessEvent(next, work[1..])
  }

  /** Process one event, note a failure, and move the checkpoint past it. */
  function DrainEvent(st: Engine, e: Event, work: seq<Minted>): Engine {
    var o := ProcessEvent(st, work);
    var failures := o.state.db.failures + (if o.Failed? then [Failure(e.key.id, o.error)] else []);
    o.state.(db := o.state.db.(failures := failures, checkpoint := Some(e.key)))
  }

  function DrainEvents(st: Engine, events: seq<Event>, work: Event -> seq<Minted>): Engine
    decreases |events|
  {
    if events == [] then st
    else DrainEvents(DrainEvent(st, events[0], work(events[0])), events[1..], work)
  }

  /** Every event of the batch is processed to its end. */
  ghost predicate EventsComplete(st: Engine, events: seq<Event>, work: Event -> seq<Minted>)
    decreases |events|
  {
    events != [] ==>
      && ProcessEvent(st, work(events[0])).Done?
      && EventsComplete(DrainEvent(st, events[0], work(events[0])), events[1..], work)
  }

  const BATCH_SIZE: nat := 64

  function Drain(st: Engine, work: Event -> seq<Minted>): Engine {
    DrainEvents(st, EventsAfter(st.db.events, st.db.checkpoint, BATCH_SIZE), work)
  }

  // ---- Runs -----------------------------------------------------------------

  datatype Op =
    | OpAppend(event: Event)
    | OpDrain(work: Event -> seq<Minted>)
    | OpAdd(memory: Memory, linked: Option<seq<EntityId>>)
    | OpForget(id: MemoryId, now: int)
    | OpFeedback(id: MemoryId, kind: Feedback, now: int)
    | OpResolve(conflict: ConflictId, action: Action, now: int)
    | OpRebuild
    | OpRestart(embedder: Embedder)

  function Step(st: Engine, op: Op): Engine {
    match op
    case OpAppend(event) => st.(db := InsertEvent(st.db, event))
    case OpDrain(work) => Drain(st, work)
    case OpAdd(memory, linked) => Remember(st, memory, linked).state
    case OpForget(id, now) => ForgetMemory(st, id, now).state
    case OpFeedback(id, kind, now) => RecordFeedback(st, id, kind, now).state
    case OpResolve(conflict, action, now) => ResolveConflict(st, conflict, action, now).state
    case OpRebuild => Rebuild(st).state
    case OpRestart(embedder) => Restart(st, embedder).state
  }

  function Run(st: Engine, ops: seq<Op>): Engine
    decreases |ops|
  {
    if ops == [] then st else Run(Step(st, ops[0]), ops[1..])
  }
}
