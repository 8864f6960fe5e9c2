/** The SQLite tables of toffee-store as values, each statement the runtime
    issues as a function on them, and the Store class that updates them. */
module Tables {
  import opened Domain
  import opened Sorting

  datatype Error =
    | NotFound | AlreadyResolved | InvalidInput
    | ConstraintViolation | EmbedFailed | DimensionMismatch | LinkFailed

  /** Rows of the embeddings table are keyed by their AUTOINCREMENT seq_id. */
  datatype EmbeddingRow = EmbeddingRow(
    memoryId: MemoryId, scope: Scope, kind: MemoryKind, model: string, vector: Vector)

  datatype EventKey = EventKey(at: int, id: EventId)

  datatype Event = Event(key: EventKey, payload: string)

  datatype Failure = Failure(event: EventId, error: Error)

  datatype Db = Db(
    memories: map<MemoryId, Memory>,
    order: seq<MemoryId>,  // memory ids in rowid order
    conflicts: seq<Conflict>,  // in created_at order
    rows: map<nat, EmbeddingRow>,
    nextRow: nat,
    links: set<(MemoryId, EntityId)>,
    events: seq<Event>,
    checkpoint: Option<EventKey>,
    failures: seq<Failure>)

  const EMPTY_DB := Db(map[], [], [], map[], 1, {}, [], None, [])

  // ---- memories -------------------------------------------------------------

  /** The schema's CHECK constraint. */
  predicate SpoCheck(m: Memory) {
    m.kind.Episode? || (m.subj.Some? && m.pred.Some? && m.obj.Some?)
  }

  function InsertMemory(db: Db, m: Memory): Option<Db> {
    if m.id in db.memories || !SpoCheck(m) then None
    else Some(db.(memories := db.memories[m.id := m.(supersededBy := None, deletedAt := None)],
                  order := db.order + [m.id]))
  }

  function SoftDelete(db: Db, id: MemoryId, now: int): Option<Db> {
    if id !in db.memories then None
    else Some(db.(memories := db.memories[id := db.memories[id].(deletedAt := Some(now), updatedAt := now)]))
  }

  function Supersede(db: Db, loser: MemoryId, winner: MemoryId, now: int): Option<Db> {
    if loser !in db.memories then None
    else
      Some(db.(memories :=
        db.memories[loser := db.memories[loser].(supersededBy := Some(winner), updatedAt := now)]))
  }

  function UpdateConfidence(db: Db, id: MemoryId, confidence: real, now: int): Option<Db> {
    if id !in db.memories then None
    else Some(db.(memories := db.memories[id := db.memories[id].(confidence := confidence, updatedAt := now)]))
  }

  /** Every memory row in rowid order. */
  function MemoryRows(memories: map<MemoryId, Memory>, order: seq<MemoryId>): seq<Memory> {
    if order == [] then []
    else (if order[0] in memories then [memories[order[0]]] else []) + MemoryRows(memories, order[1..])
  }

  /** ORDER BY updated_at DESC, id DESC */
  predicate NewestFirst(a: Memory, b: Memory) {
    a.updatedAt > b.updatedAt || (a.updatedAt == b.updatedAt && a.id >= b.id)
  }

  function ListActive(db: Db): seq<Memory> {
    Sort(Filter(MemoryRows(db.memories, db.order), Active), NewestFirst)
  }

  /** LIMIT is applied before the scope filter. */
  function RecentInScope(db: Db, scopes: Scope, limit: nat): seq<Memory> {
    Filter(Take(ListActive(db), limit), (m: Memory) => Intersects(scopes, m.scope))
  }

  function MemoriesForEntity(db: Db, entity: EntityId, scopes: Scope, limit: nat): seq<Memory> {
    var linked := Filter(MemoryRows(db.memories, db.order), (m: Memory) => (m.id, entity) in db.links && Active(m));
    Filter(Take(Sort(linked, NewestFirst), limit), (m: Memory) => Intersects(scopes, m.scope))
  }

  function FindActiveBySubjectPredicate(db: Db, scopes: Scope, subj: string, pred: string): seq<Memory> {
    Filter(MemoryRows(db.memories, db.order),
           (m: Memory) => m.subj == Some(subj) && m.pred == Some(pred) && Active(m)
                          && Intersects(scopes, m.scope))
  }

  // ---- embeddings -----------------------------------------------------------

  predicate EmbeddingExists(db: Db, id: MemoryId, model: string) {
    exists s :: s in db.rows && db.rows[s].memoryId == id && db.rows[s].model == model
  }

  function InsertEmbedding(db: Db, row: EmbeddingRow): Db {
    db.(rows := db.rows[db.nextRow := row], nextRow := db.nextRow + 1)
  }

  function DeleteEmbeddings(db: Db, id: MemoryId): Db {
    db.(rows := map s | s in db.rows && db.rows[s].memoryId != id :: db.rows[s])
  }

  function ClearEmbeddings(db: Db): Db {
    db.(rows := map[])
  }

  /** The seq_ids below bound stored under a model, ascending. */
  function SeqIds(rows: map<nat, EmbeddingRow>, model: string, bound: nat): seq<nat> {
    if bound == 0 then []
    else
      SeqIds(rows, model, bound - 1)
      + (if bound - 1 in rows && rows[bound - 1].model == model then [bound - 1] else [])
  }

  // ---- entity links ---------------------------------------------------------

  function LinkAll(db: Db, id: MemoryId, entities: seq<EntityId>): Db {
    db.(links := db.links + set e | e in entities :: (id, e))
  }

  // ---- conflicts ------------------------------------------------------------

  function FindConflict(conflicts: seq<Conflict>, id: ConflictId): (r: Option<nat>)
    ensures r.Some? ==> r.value < |conflicts| && conflicts[r.value].id == id
    ensures r.None? ==> forall i :: 0 <= i < |conflicts| ==> conflicts[i].id != id
  {
    if conflicts == [] then None
    else if conflicts[0].id == id then Some(0)
    else match FindConflict(conflicts[1..], id)
      case None => None
      case Some(k) => assert conflicts[1..][k] == conflicts[k + 1]; Some(k + 1)
  }

  predicate Dedups(c: Conflict, scopes: Scope, subj: string, pred: string) {
    c.resolution == Unresolved && c.subj == Some(subj) && c.pred == Some(pred)
    && Intersects(scopes, c.scope)
  }

  /** The oldest unresolved conflict on this subject and predicate whose scope
      meets the given one. */
  function FindUnresolved(conflicts: seq<Conflict>, scopes: Scope, subj: string, pred: string): (r: Option<nat>)
    ensures r.Some? ==> r.value < |conflicts| && Dedups(conflicts[r.value], scopes, subj, pred)
    ensures r.Some? ==> forall i :: 0 <= i < r.value ==> !Dedups(conflicts[i], scopes, subj, pred)
    ensures r.None? ==> forall i :: 0 <= i < |conflicts| ==> !Dedups(conflicts[i], scopes, subj, pred)
  {
    if conflicts == [] then None
    else if Dedups(conflicts[0], scopes, subj, pred) then Some(0)
    else match FindUnresolved(conflicts[1..], scopes, subj, pred)
      case None => None
      case Some(k) => assert conflicts[1..][k] == conflicts[k + 1]; Some(k + 1)
  }

  function InsertConflict(db: Db, c: Conflict): Option<Db> {
    if FindConflict(db.conflicts, c.id).Some? then None
    else Some(db.(conflicts := db.conflicts + [c]))
  }

  function AddMember(members: seq<MemoryId>, id: MemoryId): seq<MemoryId> {
    if id in members then members else members + [id]
  }

  function ExtendConflict(db: Db, conflict: ConflictId, id: MemoryId): Option<Db> {
    match FindConflict(db.conflicts, conflict)
    case None => None
    case Some(k) =>
      Some(db.(conflicts := db.conflicts[k := db.conflicts[k].(members := AddMember(db.conflicts[k].members, id))]))
  }

  function MarkResolved(db: Db, conflict: ConflictId, resolution: Resolution, now: int): Option<Db> {
    match FindConflict(db.conflicts, conflict)
    case None => None
    case Some(k) =>
      Some(db.(conflicts := db.conflicts[k := db.conflicts[k].(resolution := resolution, resolvedAt := Some(now))]))
  }

  // ---- events, checkpoint, failures -----------------------------------------

  /** Event ids are a primary key. */
  function InsertEvent(db: Db, e: Event): Db {
    if exists i :: 0 <= i < |db.events| && db.events[i].key.id == e.key.id then db
    else db.(events := db.events + [e])
  }

  predicate KeyLess(a: EventKey, b: EventKey) {
    a.at < b.at || (a.at == b.at && a.id < b.id)
  }

  predicate After(e: Event, checkpoint: Option<EventKey>) {
    checkpoint.None? || KeyLess(checkpoint.value, e.key)
  }

  /** ORDER BY created_at ASC, id ASC */
  predicate OldestFirst(a: Event, b: Event) {
    a.key == b.key || KeyLess(a.key, b.key)
  }

  function EventsAfter(events: seq<Event>, checkpoint: Option<EventKey>, limit: nat): seq<Event> {
    Take(Sort(Filter(events, (e: Event) => After(e, checkpoint)), OldestFirst), limit)
  }

  function CountEventsAfter(events: seq<Event>, checkpoint: Option<EventKey>): nat {
    |Filter(events, (e: Event) => After(e, checkpoint))|
  }

  // ---- The store object -----------------------------------------------------

  class Store {
    var memories: map<MemoryId, Memory>
    var order: seq<MemoryId>
    var conflicts: seq<Conflict>
    var rows: map<nat, EmbeddingRow>
    var nextRow: nat
    var links: set<(MemoryId, EntityId)>
    var events: seq<Event>
    var checkpoint: Option<EventKey>
    var failures: seq<Failure>

    /** The contents of every table. */
    function Snapshot(): Db
      reads this
    {
      Db(memories, order, conflicts, rows, nextRow, links, events, checkpoint, failures)
    }

    constructor ()
      ensures Snapshot() == EMPTY_DB
    {
      memories, order, conflicts := map[], [], [];
      rows, nextRow, links := map[], 1, {};
      events, checkpoint, failures := [], None, [];
    }

    method InsertMemoryRow(m: Memory) returns (ok: bool)
      modifies this
      ensures ok <==> InsertMemory(old(Snapshot()), m).Some?
      ensures Snapshot() == if ok then InsertMemory(old(Snapshot()), m).value else old(Snapshot())
    {
      ok := m.id !in memories && SpoCheck(m);
      if ok {
        memories := memories[m.id := m.(supersededBy := None, deletedAt := None)];
        order := order + [m.id];
      }
    }

    method SoftDeleteMemory(id: MemoryId, now: int) returns (ok: bool)
      modifies this
      ensures ok <==> SoftDelete(old(Snapshot()), id, now).Some?
      ensures Snapshot() == if ok then SoftDelete(old(Snapshot()), id, now).value else old(Snapshot())
    {
      ok := id in memories;
      if ok {
        memories := memories[id := memories[id].(deletedAt := Some(now), updatedAt := now)];
      }
    }

    method SupersedeMemory(loser: MemoryId, winner: MemoryId, now: int) returns (ok: bool)
      modifies this
      ensures ok <==> Supersede(old(Snapshot()), loser, winner, now).Some?
      ensures Snapshot() == if ok then Supersede(old(Snapshot()), loser, winner, now).value else old(Snapshot())
    {
      ok := loser in memories;
      if ok {
        memories := memories[loser := memories[loser].(supersededBy := Some(winner), updatedAt := now)];
      }
    }

    method UpdateMemoryConfidence(id: MemoryId, confidence: real, now: int) returns (ok: bool)
      modifies this
      ensures ok <==> UpdateConfidence(old(Snapshot()), id, confidence, now).Some?
      ensures Snapshot() == if ok then UpdateConfidence(old(Snapshot()), id, confidence, now).value else old(Snapshot())
    {
      ok := id in memories;
      if ok {
        memories := memories[id := memories[id].(confidence := confidence, updatedAt := now)];
      }
    }

    method InsertEmbeddingRow(row: EmbeddingRow) returns (seqId: nat)
      modifies this
      ensures seqId == old(nextRow)
      ensures Snapshot() == InsertEmbedding(old(Snapshot()), row)
    {
      seqId := nextRow;
      rows := rows[nextRow := row];
      nextRow := nextRow + 1;
    }

    method DeleteEmbeddingsForMemory(id: MemoryId)
      modifies this
      ensures Snapshot() == DeleteEmbeddings(old(Snapshot()), id)
    {
      rows := map s | s in rows && rows[s].memoryId != id :: rows[s];
    }

    method ClearEmbeddingRows()
      modifies this
      ensures Snapshot() == ClearEmbeddings(old(Snapshot()))
    {
      rows := map[];
    }

    method LinkMemoryEntity(id: MemoryId, entity: EntityId)
      modifies this
      ensures Snapshot() == old(Snapshot()).(links := old(links) + {(id, entity)})
    {
      links := links + {(id, entity)};
    }

    /** The search loop over unresolved conflicts, oldest first. */
    method FindUnresolvedConflictForSpo(scopes: Scope, subj: string, pred: string) returns (r: Option<nat>)
      ensures r == FindUnresolved(conflicts, scopes, subj, pred)
    {
      var i := 0;
      while i < |conflicts|
        invariant 0 <= i <= |conflicts|
        invariant forall j :: 0 <= j < i ==> !Dedups(conflicts[j], scopes, subj, pred)
      {
        if Dedups(conflicts[i], scopes, subj, pred) {
          return Some(i);
        }
        i := i + 1;
      }
      return None;
    }

    method InsertConflictRow(c: Conflict) returns (ok: bool)
      modifies this
      ensures ok <==> InsertConflict(old(Snapshot()), c).Some?
      ensures Snapshot() == if ok then InsertConflict(old(Snapshot()), c).value else old(Snapshot())
    {
      ok := FindConflict(conflicts, c.id).None?;
      if ok {
        conflicts := conflicts + [c];
      }
    }

    method ExtendConflictRow(conflict: ConflictId, id: MemoryId) returns (ok: bool)
      modifies this
      ensures ok <==> ExtendConflict(old(Snapshot()), conflict, id).Some?
      ensures Snapshot() == if ok then ExtendConflict(old(Snapshot()), conflict, id).value else old(Snapshot())
    {
      var found := FindConflict(conflicts, conflict);
      ok := found.Some?;
      if ok {
        var c := conflicts[found.value];
        if id !in c.members {
          c := c.(members := c.members + [id]);
        }
        conflicts := conflicts[found.value := c];
      }
    }

    method ResolveConflictRow(conflict: ConflictId, resolution: Resolution, now: int) returns (ok: bool)
      modifies this
      ensures ok <==> MarkResolved(old(Snapshot()), conflict, resolution, now).Some?
      ensures Snapshot()
              == if ok then MarkResolved(old(Snapshot()), conflict, resolution, now).value else old(Snapshot())
    {
      var found := FindConflict(conflicts, conflict);
      ok := found.Some?;
      if ok {
        conflicts :=
          conflicts[found.value := conflicts[found.value].(resolution := resolution, resolvedAt := Some(now))];
      }
    }

    method AppendEvent(e: Event)
      modifies this
      ensures Snapshot() == InsertEvent(old(Snapshot()), e)
    {
      if forall i :: 0 <= i < |events| ==> events[i].key.id != e.key.id {
        events := events + [e];
      }
    }

    method SetWorkerCheckpoint(key: EventKey)
      modifies this
      ensures Snapshot() == old(Snapshot()).(checkpoint := Some(key))
    {
      checkpoint := Some(key);
    }

    method RecordWorkerFailure(event: EventId, error: Error)
      modifies this
      ensures Snapshot() == old(Snapshot()).(failures := old(failures) + [Failure(event, error)])
    {
      failures := failures + [Failure(event, error)];
    }
  }
}
