/** What each way of resolving a conflict leaves behind, field by field. */
module ResolutionEffects {
  import opened Domain
  import opened Sorting
  import opened Tables
  import opened Engines
  import opened IndexInvariant
  import opened Conflicts
  import opened ResolutionCoverage
  import Runtimes

  type MemoryTable = map<MemoryId, Memory>

  /** The member after the verdict. */
  function Retired(m: Memory, verdict: Verdict, now: int): Memory {
    match verdict
    case LosesTo(winner) => if m.id == winner then m else m.(supersededBy := Some(winner), updatedAt := now)
    case MergedInto(merged) => m.(supersededBy := Some(merged), updatedAt := now)
    case Rejected => m.(deletedAt := Some(now), updatedAt := now)
  }

  lemma {:induction false} RetireAllRows(st: Engine, ids: seq<MemoryId>, verdict: Verdict, now: int)
    requires Keyed(st.db) && forall id :: id in ids ==> id in st.db.memories
    ensures var o := RetireAll(st, ids, verdict, now);
            && o.Done? && o.state.embedder == st.embedder
            && o.state.db == st.db.(memories := o.state.db.memories, rows := o.state.db.rows)
            && o.state.db.memories.Keys == st.db.memories.Keys
            && forall id :: id in st.db.memories ==>
                 o.state.db.memories[id]
                 == if id in ids then Retired(st.db.memories[id], verdict, now) else st.db.memories[id]
    decreases |ids|
  {
    if ids != [] {
      assert ids[0] in ids;
      var o := Retire(st, ids[0], verdict, now);
      assert o.Done? && o.state.db.memories.Keys == st.db.memories.Keys;
      assert forall id :: id in st.db.memories ==>
        o.state.db.memories[id]
        == if id == ids[0] then Retired(st.db.memories[id], verdict, now) else st.db.memories[id];
      RetireAllRows(o.state, ids[1..], verdict, now);
      assert forall id :: id in ids <==> id == ids[0] || id in ids[1..];
    }
  }

  /** That conflict alone is marked. */
  ghost predicate OnlyMarked(db: Db, db': Db, k: nat, resolution: Resolution, now: int)
    requires k < |db.conflicts|
  {
    && |db'.conflicts| == |db.conflicts|
    && (forall i :: 0 <= i < |db.conflicts| && i != k ==> db'.conflicts[i] == db.conflicts[i])
    && db'.conflicts[k].id == db.conflicts[k].id && db'.conflicts[k].members == db.conflicts[k].members
    && db'.conflicts[k].scope == db.conflicts[k].scope && db'.conflicts[k].createdAt == db.conflicts[k].createdAt
    && db'.conflicts[k].subj == db.conflicts[k].subj && db'.conflicts[k].pred == db.conflicts[k].pred
    && db'.conflicts[k].resolution == resolution && db'.conflicts[k].resolvedAt == Some(now)
  }

  ghost predicate EventTablesKept(db: Db, db': Db) {
    db'.events == db.events && db'.checkpoint == db.checkpoint && db'.failures == db.failures
  }

  // ---- Refusals -------------------------------------------------------------

  /** An unknown conflict, one already resolved, and a winner outside it are
      refused, and nothing changes. */
  lemma RefusalEffect(st: Engine, conflict: ConflictId, action: Action, now: int)
    ensures (forall i :: 0 <= i < |st.db.conflicts| ==> st.db.conflicts[i].id != conflict) ==>
              ResolveConflict(st, conflict, action, now) == Failed(st, NotFound)
    ensures forall i :: UniqueConflictIds(st.db.conflicts) && 0 <= i < |st.db.conflicts|
                        && st.db.conflicts[i].id == conflict ==>
              && (st.db.conflicts[i].resolution != Unresolved ==>
                    ResolveConflict(st, conflict, action, now) == Failed(st, AlreadyResolved))
              && (st.db.conflicts[i].resolution == Unresolved && action.Pick?
                  && action.winner !in st.db.conflicts[i].members ==>
                    ResolveConflict(st, conflict, action, now) == Failed(st, InvalidInput))
  {}

  // ---- Picking and rejecting ------------------------------------------------

  /** A pick makes every other member superseded by the winner, now, leaves the
      winner and all other memories as they are, and closes that conflict. */
  lemma PickWinnerEffect(st: Engine, k: nat, winner: MemoryId, now: int)
    requires Grounded(st.db) && k < |st.db.conflicts| && st.db.conflicts[k].resolution == Unresolved
    requires winner in st.db.conflicts[k].members
    ensures var c := st.db.conflicts[k];
            var o := ResolveConflict(st, c.id, Pick(winner), now);
            && o.Done? && OnlyMarked(st.db, o.state.db, k, Picked, now) && EventTablesKept(st.db, o.state.db)
            && o.state.db.memories.Keys == st.db.memories.Keys && o.state.db.links == st.db.links
            && (forall id :: id in c.members && id != winner ==>
                  o.state.db.memories[id] == st.db.memories[id].(supersededBy := Some(winner), updatedAt := now))
            && (forall id :: id in st.db.memories && (id !in c.members || id == winner) ==>
                  o.state.db.memories[id] == st.db.memories[id])
  {
    RetireAllRows(st, st.db.conflicts[k].members, LosesTo(winner), now);
    assert FindConflict(st.db.conflicts, st.db.conflicts[k].id) == Some(k);
  }

  /** Rejecting deletes every member now, superseding none, and closes that
      conflict. */
  lemma RejectAllEffect(st: Engine, k: nat, now: int)
    requires Grounded(st.db) && k < |st.db.conflicts| && st.db.conflicts[k].resolution == Unresolved
    ensures var c := st.db.conflicts[k];
            var o := ResolveConflict(st, c.id, RejectAll, now);
            && o.Done? && OnlyMarked(st.db, o.state.db, k, RejectedAll, now) && EventTablesKept(st.db, o.state.db)
            && o.state.db.memories.Keys == st.db.memories.Keys && o.state.db.links == st.db.links
            && (forall id :: id in c.members ==>
                  o.state.db.memories[id] == st.db.memories[id].(deletedAt := Some(now), updatedAt := now))
            && (forall id :: id in st.db.memories && id !in c.members ==>
                  o.state.db.memories[id] == st.db.memories[id])
  {
    RetireAllRows(st, st.db.conflicts[k].members, Rejected, now);
    assert FindConflict(st.db.conflicts, st.db.conflicts[k].id) == Some(k);
  }

  // ---- Merging --------------------------------------------------------------

  /** Given, or else the other. */
  predicate GivenOr<T(==)>(given: Option<T>, other: Option<T>, x: Option<T>) {
    x == if given.Some? then given else other
  }

  /** The memory a merge stores for the conflict. */
  ghost predicate MergedRow(db: Db, c: Conflict, action: Action, now: int, m: Memory)
    requires action.Merge?
  {
    && m.id == action.mergedId && m.kind == Claim && m.scope == c.scope && m.text == action.text
    && GivenOr(action.subj, c.subj, m.subj) && GivenOr(action.pred, c.pred, m.pred)
    && GivenOr(action.obj, Some(action.text), m.obj)
    && m.confidence == (if action.confidence.Some? then action.confidence.value else 0.95)
    && m.createdAt == now && m.updatedAt == now && m.supersededBy == None && m.deletedAt == None
    && NoDuplicates(m.sources)
    && forall e :: e in m.sources <==>
         exists i :: 0 <= i < |c.members| && c.members[i] in db.memories && e in db.memories[c.members[i]].sources
  }

  lemma MergedRowIsStored(st: Engine, c: Conflict, action: Action, now: int)
    requires action.Merge?
    ensures MergedRow(st.db, c, action, now, MergedMemory(st.db, c, action, now))
  {
    Runtimes.SourceEventsAreUnion(st.db.memories, c.members, []);
    var m := MergedMemory(st.db, c, action, now);
    forall e
      ensures e in m.sources <==>
              exists i :: 0 <= i < |c.members| && c.members[i] in st.db.memories
                          && e in st.db.memories[c.members[i]].sources
    {
      assert e in m.sources <==> Runtimes.SourceOf(st.db.memories, c.members, e);
    }
  }

  /** When a merge completes: its memory's id is new, its fact is whole, its links
      succeed and the embedder takes what is spoken of it. */
  lemma MergeCompletes(st: Engine, k: nat, action: Action, now: int, sentence: string, dimOf: string -> nat)
    requires Safe(st, dimOf) && Grounded(st.db) && action.Merge?
    requires k < |st.db.conflicts| && st.db.conflicts[k].resolution == Unresolved
    requires var c := st.db.conflicts[k];
             var s := if action.subj.Some? then action.subj else c.subj;
             var p := if action.pred.Some? then action.pred else c.pred;
             s.Some? && p.Some? ==>
               sentence == action.text + " \n " + s.value + " " + p.value + " "
                           + if action.obj.Some? then action.obj.value else action.text
    ensures var c := st.db.conflicts[k];
            ResolveConflict(st, c.id, action, now).Done? <==>
              && action.mergedId !in st.db.memories
              && (action.subj.Some? || c.subj.Some?) && (action.pred.Some? || c.pred.Some?)
              && action.linked.Some? && st.embedder.embed(sentence).Some?
  {
    var m := MergedMemory(st.db, st.db.conflicts[k], action, now);
    MergeOutcome(st, k, action, now);
    RememberKeepsSafe(st, m, action.linked, dimOf);
    assert InsertMemory(st.db, m).Some? ==> ComposeText(m) == sentence;
  }

  /** A completed merge stores one memory, makes every member superseded by it,
      now, deletes none, leaves all others as they are, and closes that
      conflict. */
  lemma MergeEffect(st: Engine, k: nat, action: Action, now: int)
    requires Grounded(st.db) && action.Merge?
    requires k < |st.db.conflicts| && st.db.conflicts[k].resolution == Unresolved
    requires ResolveConflict(st, st.db.conflicts[k].id, action, now).Done?
    ensures var c := st.db.conflicts[k];
            var db' := ResolveConflict(st, c.id, action, now).state.db;
            && OnlyMarked(st.db, db', k, Merged, now) && EventTablesKept(st.db, db')
            && action.mergedId !in st.db.memories && db'.memories.Keys == st.db.memories.Keys + {action.mergedId}
            && MergedRow(st.db, c, action, now, db'.memories[action.mergedId])
            && (forall id :: id in c.members ==>
                  db'.memories[id] == st.db.memories[id].(supersededBy := Some(action.mergedId), updatedAt := now))
            && (forall id :: id in st.db.memories && id !in c.members ==> db'.memories[id] == st.db.memories[id])
            && action.linked.Some?
            && db'.links == st.db.links + set e | e in action.linked.value :: (action.mergedId, e)
  {
    var c := st.db.conflicts[k];
    MergedRowIsStored(st, c, action, now);
    MergedTables(st, k, MergedMemory(st.db, c, action, now), action, now);
  }

  /** The tables a completed merge leaves, given the memory it stores. */
  lemma MergedTables(st: Engine, k: nat, m: Memory, action: Action, now: int)
    requires Grounded(st.db) && action.Merge?
    requires k < |st.db.conflicts| && st.db.conflicts[k].resolution == Unresolved
    requires m == MergedMemory(st.db, st.db.conflicts[k], action, now)
    requires ResolveConflict(st, st.db.conflicts[k].id, action, now).Done?
    ensures var c := st.db.conflicts[k];
            var db' := ResolveConflict(st, c.id, action, now).state.db;
            && OnlyMarked(st.db, db', k, Merged, now) && EventTablesKept(st.db, db')
            && m.id !in st.db.memories && db'.memories.Keys == st.db.memories.Keys + {m.id} && db'.memories[m.id] == m
            && (forall id :: id in c.members ==>
                  db'.memories[id] == st.db.memories[id].(supersededBy := Some(m.id), updatedAt := now))
            && (forall id :: id in st.db.memories && id !in c.members ==> db'.memories[id] == st.db.memories[id])
            && action.linked.Some? && db'.links == st.db.links + set e | e in action.linked.value :: (m.id, e)
  {
    var c := st.db.conflicts[k];
    var remembered := Remember(st, m, action.linked).state;
    MergeRetires(st, k, m, action, now);
    MergedMemoryRemembered(st, m, action.linked);
    assert forall id :: id in c.members ==> id in st.db.memories;
    RetireAllRows(remembered, c.members, MergedInto(m.id), now);
  }

  /** What a completed merge leaves is what retiring the members leaves, with the
      conflict closed. */
  lemma MergeRetires(st: Engine, k: nat, m: Memory, action: Action, now: int)
    requires Grounded(st.db) && action.Merge?
    requires k < |st.db.conflicts| && st.db.conflicts[k].resolution == Unresolved
    requires m == MergedMemory(st.db, st.db.conflicts[k], action, now)
    requires ResolveConflict(st, st.db.conflicts[k].id, action, now).Done?
    ensures var c := st.db.conflicts[k];
            var remembered := Remember(st, m, action.linked);
            var db' := RetireAll(remembered.state, c.members, MergedInto(m.id), now).state.db;
            && remembered.Done?
            && (db'.conflicts == st.db.conflicts ==>
                  ResolveConflict(st, c.id, action, now).state.db
                  == db'.(conflicts := st.db.conflicts[k := c.(resolution := Merged, resolvedAt := Some(now))]))
  {
    assert FindConflict(st.db.conflicts, st.db.conflicts[k].id) == Some(k);
  }

  lemma MergedMemoryRemembered(st: Engine, m: Memory, linked: Option<seq<EntityId>>)
    requires Grounded(st.db) && m.supersededBy == None && m.deletedAt == None && Remember(st, m, linked).Done?
    ensures var db' := Remember(st, m, linked).state.db;
            && m.id !in st.db.memories && db'.memories == st.db.memories[m.id := m] && Keyed(db')
            && db'.conflicts == st.db.conflicts && EventTablesKept(st.db, db')
            && linked.Some? && db'.links == st.db.links + set e | e in linked.value :: (m.id, e)
  {
    RememberTables(st, m, linked);
    RememberLinks(st, m, linked);
  }

  lemma RememberLinks(st: Engine, m: Memory, linked: Option<seq<EntityId>>)
    requires Remember(st, m, linked).Done?
    ensures linked.Some? && m.id !in st.db.memories
    ensures Remember(st, m, linked).state.db.links == st.db.links + set e | e in linked.value :: (m.id, e)
  {}
}
