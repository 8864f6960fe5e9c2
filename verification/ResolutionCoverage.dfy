/** Resolution and contradictions: every action keeps the tables well formed, and
    a merge leaves no contradiction exactly when the merged memory makes none. */
module ResolutionCoverage {
  import opened Domain
  import opened Tables
  import opened Engines
  import opened IndexInvariant
  import opened Conflicts
  import opened WorkerCoverage

  lemma MarkResolvedKeepsGrounded(o: Outcome, conflict: ConflictId, resolution: Resolution, now: int)
    requires Grounded(o.state.db) && resolution != Unresolved
    ensures var db' := Close(o, conflict, resolution, now).state.db;
            Grounded(db') && Evolves(o.state.db, db')
            && (DisjointScopes(o.state.db.conflicts) ==> DisjointScopes(db'.conflicts))
  {
    var db := o.state.db;
    var found := FindConflict(db.conflicts, conflict);
    if o.Done? && found.Some? {
      var k := found.value;
      var db' := Close(o, conflict, resolution, now).state.db;
      forall i, id | 0 <= i < |db'.conflicts| && id in db'.conflicts[i].members
        ensures id in db'.memories
      {
        assert id in db.conflicts[i].members;
      }
      forall i, j | DisjointScopes(db.conflicts) && 0 <= i < j < |db'.conflicts|
                    && SameTopic(db'.conflicts[i], db'.conflicts[j])
        ensures !Intersects(db'.conflicts[i].scope, db'.conflicts[j].scope)
      {
        assert SameTopic(db.conflicts[i], db.conflicts[j]);
      }
    }
  }

  lemma ResolveKeepsGrounded(st: Engine, conflict: ConflictId, action: Action, now: int)
    requires Grounded(st.db)
    ensures var db' := ResolveConflict(st, conflict, action, now).state.db;
            Grounded(db') && Evolves(st.db, db') && (DisjointScopes(st.db.conflicts) ==> DisjointScopes(db'.conflicts))
  {
    var found := FindConflict(st.db.conflicts, conflict);
    if found.Some? && st.db.conflicts[found.value].resolution == Unresolved {
      var c := st.db.conflicts[found.value];
      match action
      case Pick(winner) =>
        RetireAllShrinks(st, c.members, LosesTo(winner), now);
        MarkResolvedKeepsGrounded(RetireAll(st, c.members, LosesTo(winner), now), conflict, Picked, now);
      case RejectAll =>
        RetireAllShrinks(st, c.members, Rejected, now);
        MarkResolvedKeepsGrounded(RetireAll(st, c.members, Rejected, now), conflict, RejectedAll, now);
      case Merge(_, _, _, _, _, mergedId, linked) =>
        var m := MergedMemory(st.db, c, action, now);
        RememberGrounded(st, m, linked);
        var o := Remember(st, m, linked);
        RetireAllShrinks(o.state, c.members, MergedInto(mergedId), now);
        MarkResolvedKeepsGrounded(RetireAll(o.state, c.members, MergedInto(mergedId), now), conflict, Merged, now);
    }
  }

  /** The memories after m was remembered and every id was retired in its
      favour. */
  lemma MergeMemories(st: Engine, m: Memory, linked: Option<seq<EntityId>>, ids: seq<MemoryId>, now: int)
    requires Grounded(st.db) && Remember(st, m, linked).Done?
    requires m.supersededBy.None? && m.deletedAt.None?
    requires forall id :: id in ids ==> id in st.db.memories
    ensures var o := RetireAll(Remember(st, m, linked).state, ids, MergedInto(m.id), now);
            && o.Done? && o.state.db.conflicts == st.db.conflicts && m.id !in st.db.memories
            && ActiveIn(o.state.db, m.id) && o.state.db.memories[m.id] == m
            && (forall id :: id != m.id ==> (ActiveIn(o.state.db, id) <==> ActiveIn(st.db, id) && id !in ids))
            && (forall id :: id != m.id && ActiveIn(o.state.db, id) ==> o.state.db.memories[id] == st.db.memories[id])
  {
    RememberTables(st, m, linked);
    var remembered := Remember(st, m, linked).state;
    RetireAllShrinks(remembered, ids, MergedInto(m.id), now);
    RetireAllSpares(remembered, ids, MergedInto(m.id), now);
  }

  /** A merge that completes leaves every contradiction covered exactly when the
      merged memory contradicts no active memory outside the conflict it closes:
      nothing but the members objects to it. */
  lemma CompletedMergeCoverage(st: Engine, conflict: ConflictId, action: Action, now: int)
    requires Grounded(st.db) && Covered(st.db) && action.Merge?
    requires ResolveConflict(st, conflict, action, now).Done?
    ensures var c := st.db.conflicts[FindConflict(st.db.conflicts, conflict).value];
            Covered(ResolveConflict(st, conflict, action, now).state.db) <==>
              forall id :: ActiveIn(st.db, id) && id !in c.members ==>
                             !Contradict(st.db.memories[id], MergedMemory(st.db, c, action, now))
  {
    var k := FindConflict(st.db.conflicts, conflict).value;
    var c := st.db.conflicts[k];
    var m := MergedMemory(st.db, c, action, now);
    assert forall id :: id in c.members ==> id in st.db.memories;
    MergeMemories(st, m, action.linked, c.members, now);
    var retired := RetireAll(Remember(st, m, action.linked).state, c.members, MergedInto(m.id), now).state.db;
    var db' := retired.(conflicts := st.db.conflicts[k := c.(resolution := Merged, resolvedAt := Some(now))]);
    assert ResolveConflict(st, conflict, action, now).state.db == db';
    MergedTablesCoverage(st.db, db', k, m);
  }

  /** Every active memory that contradicts m is among the members. */
  ghost predicate OnlyMembersObject(db: Db, m: Memory, members: seq<MemoryId>) {
    forall id :: ActiveIn(db, id) && Contradict(db.memories[id], m) ==> id in members
  }

  /** If the merge is not refused before it stores its memory, then nothing active
      contradicts that memory, or only members of the conflict do and the links
      and the embedding succeed, so that the members are retired. */
  ghost predicate MergeSpares(st: Engine, conflict: ConflictId, action: Action, now: int)
    requires action.Merge?
  {
    var found := FindConflict(st.db.conflicts, conflict);
    found.Some? && st.db.conflicts[found.value].resolution == Unresolved ==>
      var c := st.db.conflicts[found.value];
      var m := MergedMemory(st.db, c, action, now);
      InsertMemory(st.db, m).Some? ==>
        || Uncontradicted(st.db, m)
        || (&& OnlyMembersObject(st.db, m, c.members)
            && action.linked.Some? && st.embedder.embed(ComposeText(m)).Some?)
  }

  /** A merge completes once its memory is remembered, and otherwise stops there. */
  lemma MergeOutcome(st: Engine, k: nat, action: Action, now: int)
    requires Grounded(st.db) && action.Merge?
    requires k < |st.db.conflicts| && st.db.conflicts[k].resolution == Unresolved
    ensures var c := st.db.conflicts[k];
            var o := Remember(st, MergedMemory(st.db, c, action, now), action.linked);
            if o.Done? then ResolveConflict(st, c.id, action, now).Done?
            else ResolveConflict(st, c.id, action, now) == o
  {
    var c := st.db.conflicts[k];
    var m := MergedMemory(st.db, c, action, now);
    assert FindConflict(st.db.conflicts, c.id) == Some(k);
    if Remember(st, m, action.linked).Done? {
      assert forall id :: id in c.members ==> id in st.db.memories;
      MergeMemories(st, m, action.linked, c.members, now);
    }
  }

  /** A merge, completed, failed or refused, leaves every contradiction covered
      exactly under that condition on the state before it. */
  lemma MergeCoverage(st: Engine, conflict: ConflictId, action: Action, now: int, dimOf: string -> nat)
    requires Safe(st, dimOf) && Grounded(st.db) && Covered(st.db) && action.Merge?
    ensures Covered(ResolveConflict(st, conflict, action, now).state.db) <==> MergeSpares(st, conflict, action, now)
  {
    var found := FindConflict(st.db.conflicts, conflict);
    if found.Some? && st.db.conflicts[found.value].resolution == Unresolved {
      var c := st.db.conflicts[found.value];
      var m := MergedMemory(st.db, c, action, now);
      RememberKeepsSafe(st, m, action.linked, dimOf);
      MergeOutcome(st, found.value, action, now);
      if Remember(st, m, action.linked).Done? {
        CompletedMergeCoverage(st, conflict, action, now);
      } else {
        RememberCoverage(st, m, action.linked);
      }
    }
  }

  /** The tables after a merge closed the k-th conflict in favour of m. */
  lemma MergedTablesCoverage(db: Db, db': Db, k: nat, m: Memory)
    requires Grounded(db) && Covered(db) && k < |db.conflicts| && m.id !in db.memories
    requires |db'.conflicts| == |db.conflicts| && db'.conflicts[k].resolution != Unresolved
    requires forall i :: 0 <= i < |db.conflicts| && i != k ==> db'.conflicts[i] == db.conflicts[i]
    requires ActiveIn(db', m.id) && db'.memories[m.id] == m
    requires forall id :: id != m.id ==>
               (ActiveIn(db', id) <==> ActiveIn(db, id) && id !in db.conflicts[k].members)
    requires forall id :: id != m.id && ActiveIn(db', id) ==> db'.memories[id] == db.memories[id]
    ensures Covered(db') <==>
            forall id :: ActiveIn(db, id) && id !in db.conflicts[k].members ==> !Contradict(db.memories[id], m)
  {}

  /** Memories outside the list are not retired. */
  lemma {:induction false} RetireAllSpares(st: Engine, ids: seq<MemoryId>, verdict: Verdict, now: int)
    ensures var o := RetireAll(st, ids, verdict, now);
            forall id :: id in st.db.memories && (id !in ids || verdict == LosesTo(id)) ==>
                           id in o.state.db.memories && o.state.db.memories[id] == st.db.memories[id]
    decreases |ids|
  {
    if ids != [] && Retire(st, ids[0], verdict, now).Done? {
      RetireAllSpares(Retire(st, ids[0], verdict, now).state, ids[1..], verdict, now);
      assert forall id :: id in ids <==> id == ids[0] || id in ids[1..];
    }
  }
}
