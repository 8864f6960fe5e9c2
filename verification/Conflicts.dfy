/** Contradictions and the conflicts that contest them: when every contradiction
    among active memories is covered by an unresolved conflict, and what retiring,
    remembering, detecting and filing do to that. */
module Conflicts {
  import opened Domain
  import opened Sorting
  import opened Tables
  import opened VectorIndexes
  import opened Engines
  import opened IndexInvariant

  ghost predicate UniqueConflictIds(conflicts: seq<Conflict>) {
    forall i, j :: 0 <= i < j < |conflicts| ==> conflicts[i].id != conflicts[j].id
  }

  ghost predicate MembersExist(db: Db) {
    forall i, id :: 0 <= i < |db.conflicts| && id in db.conflicts[i].members ==> id in db.memories
  }

  /** What every run keeps of the memory and conflict tables. */
  ghost predicate Grounded(db: Db) {
    Keyed(db) && UniqueConflictIds(db.conflicts) && MembersExist(db)
  }

  /** Some unresolved conflict has both memories as members. */
  ghost predicate Contested(conflicts: seq<Conflict>, a: MemoryId, b: MemoryId) {
    exists i :: 0 <= i < |conflicts| && conflicts[i].resolution == Unresolved
                && a in conflicts[i].members && b in conflicts[i].members
  }

  ghost predicate ActiveIn(db: Db, id: MemoryId) {
    id in db.memories && Active(db.memories[id])
  }

  ghost predicate Covered(db: Db) {
    forall a, b :: ActiveIn(db, a) && ActiveIn(db, b) && Contradict(db.memories[a], db.memories[b]) ==>
                     Contested(db.conflicts, a, b)
  }

  /** Unresolved conflicts on one subject and predicate have disjoint scopes. */
  ghost predicate DisjointScopes(conflicts: seq<Conflict>) {
    forall i, j :: 0 <= i < j < |conflicts| && SameTopic(conflicts[i], conflicts[j]) ==>
                     !Intersects(conflicts[i].scope, conflicts[j].scope)
  }

  ghost predicate SameTopic(a: Conflict, b: Conflict) {
    && a.resolution == Unresolved && b.resolution == Unresolved
    && a.subj.Some? && a.pred.Some? && a.subj == b.subj && a.pred == b.pred
  }

  /** One kind, scope and fact in the same words. */
  predicate Restates(a: Memory, b: Memory) {
    && a.kind == b.kind && a.scope == b.scope && a.text == b.text
    && a.subj == b.subj && a.pred == b.pred && a.obj == b.obj
  }

  /** The fact a memory states never changes once stored. */
  predicate SameFact(a: Memory, b: Memory) {
    a.id == b.id && Restates(a, b)
  }

  /** Every stored memory is still there, states the same fact, and has not been
      revived. */
  ghost predicate Evolves(db: Db, db': Db) {
    forall id :: id in db.memories ==>
                   && id in db'.memories
                   && SameFact(db.memories[id], db'.memories[id])
                   && (Active(db'.memories[id]) ==> Active(db.memories[id]))
  }

  /** As Evolves, with no new memory and the same conflicts. */
  ghost predicate Shrinks(db: Db, db': Db) {
    Evolves(db, db') && db'.memories.Keys == db.memories.Keys && db'.order == db.order && db'.conflicts == db.conflicts
  }

  lemma ContradictSymmetric(a: Memory, b: Memory)
    ensures Contradict(a, b) <==> Contradict(b, a)
  {}

  lemma ShrinkingKeepsCovered(db: Db, db': Db)
    requires Shrinks(db, db')
    ensures Covered(db) ==> Covered(db')
    ensures Grounded(db) ==> Grounded(db')
  {}

  // ---- Retiring -------------------------------------------------------------

  lemma RetireShrinks(st: Engine, id: MemoryId, verdict: Verdict, now: int)
    ensures var o := Retire(st, id, verdict, now);
            && Shrinks(st.db, o.state.db)
            && (o.Done? && verdict != LosesTo(id) ==> !ActiveIn(o.state.db, id))
            && (id in st.db.memories ==> o.Done?)
  {}

  lemma ShrinksTwice(a: Db, b: Db, c: Db)
    requires Shrinks(a, b) && Shrinks(b, c)
    ensures Shrinks(a, c)
    ensures forall id :: id in a.memories && !ActiveIn(b, id) ==> !ActiveIn(c, id)
  {}

  lemma {:induction false} RetireAllShrinks(st: Engine, ids: seq<MemoryId>, verdict: Verdict, now: int)
    ensures var o := RetireAll(st, ids, verdict, now);
            && Shrinks(st.db, o.state.db)
            && (o.Done? ==> forall id :: id in ids && verdict != LosesTo(id) ==> !ActiveIn(o.state.db, id))
            && ((forall id :: id in ids ==> id in st.db.memories) ==> o.Done?)
    decreases |ids|
  {
    if ids != [] {
      var o := Retire(st, ids[0], verdict, now);
      RetireShrinks(st, ids[0], verdict, now);
      assert ids[0] in ids;
      if o.Done? {
        RetireAllShrinks(o.state, ids[1..], verdict, now);
        ShrinksTwice(st.db, o.state.db, RetireAll(o.state, ids[1..], verdict, now).state.db);
        assert forall id :: id in ids <==> id == ids[0] || id in ids[1..];
      }
    }
  }

  /** Marking a conflict resolved keeps coverage when at most one of its members
      is still active. */
  lemma MarkResolvedKeepsCovered(db: Db, k: nat, survivor: MemoryId, resolution: Resolution, now: int)
    requires Grounded(db) && Covered(db)
    requires k < |db.conflicts| && resolution != Unresolved
    requires forall id :: id in db.conflicts[k].members && id != survivor ==> !ActiveIn(db, id)
    ensures var db' :=
              db.(conflicts := db.conflicts[k := db.conflicts[k].(resolution := resolution, resolvedAt := Some(now))]);
            Grounded(db') && Covered(db')
  {
    var db' := db.(conflicts := db.conflicts[k := db.conflicts[k].(resolution := resolution, resolvedAt := Some(now))]);
    forall a, b | ActiveIn(db', a) && ActiveIn(db', b) && Contradict(db'.memories[a], db'.memories[b])
      ensures Contested(db'.conflicts, a, b)
    {
      assert a != b;
      assert Contested(db.conflicts, a, b);
      var i :| 0 <= i < |db.conflicts| && db.conflicts[i].resolution == Unresolved
               && a in db.conflicts[i].members && b in db.conflicts[i].members;
      assert i != k;
      assert db'.conflicts[i] == db.conflicts[i];
    }
    forall i, id | 0 <= i < |db'.conflicts| && id in db'.conflicts[i].members
      ensures id in db'.memories
    {
      assert id in db.conflicts[i].members;
    }
  }

  /** Pick and reject-all keep coverage, also when they are refused. */
  lemma ResolveKeepsCovered(st: Engine, conflict: ConflictId, action: Action, now: int)
    requires Grounded(st.db) && Covered(st.db) && !action.Merge?
    ensures Covered(ResolveConflict(st, conflict, action, now).state.db)
  {
    var found := FindConflict(st.db.conflicts, conflict);
    if found.Some? && st.db.conflicts[found.value].resolution == Unresolved
       && (action.Pick? ==> action.winner in st.db.conflicts[found.value].members) {
      var k := found.value;
      var c := st.db.conflicts[k];
      assert forall id :: id in c.members ==> id in st.db.memories;
      var verdict := if action.Pick? then LosesTo(action.winner) else Rejected;
      RetireAllShrinks(st, c.members, verdict, now);
      var db := RetireAll(st, c.members, verdict, now).state.db;
      ShrinkingKeepsCovered(st.db, db);
      var survivor := if action.Pick? then action.winner else 0;
      MarkResolvedKeepsCovered(db, k, survivor, if action.Pick? then Picked else RejectedAll, now);
    }
  }

  // ---- Forgetting, feedback and rebuilding ----------------------------------

  lemma {:induction false} EmbedAllTables(st: Engine, memories: seq<Memory>)
    ensures var db' := EmbedAll(st, memories).state.db; db' == st.db.(rows := db'.rows, nextRow := db'.nextRow)
    decreases |memories|
  {
    if memories != [] && EmbedAndIndex(st, memories[0]).Done? {
      EmbedAllTables(EmbedAndIndex(st, memories[0]).state, memories[1..]);
    }
  }

  lemma ForgetShrinks(st: Engine, id: MemoryId, now: int)
    ensures var db' := ForgetMemory(st, id, now).state.db;
            && Shrinks(st.db, db') && Evolves(st.db, db')
            && (Grounded(st.db) ==> Grounded(db')) && (Covered(st.db) ==> Covered(db'))
            && (DisjointScopes(st.db.conflicts) ==> DisjointScopes(db'.conflicts))
  {
    ShrinkingKeepsCovered(st.db, ForgetMemory(st, id, now).state.db);
  }

  lemma RebuildShrinks(st: Engine)
    ensures var db' := Rebuild(st).state.db;
            && Shrinks(st.db, db') && db'.memories == st.db.memories
            && (Grounded(st.db) ==> Grounded(db')) && (Covered(st.db) ==> Covered(db'))
            && (DisjointScopes(st.db.conflicts) ==> DisjointScopes(db'.conflicts))
  {
    EmbedAllTables(st.(db := ClearEmbeddings(st.db), index := EmptyIndex(st.index.dim)), ListActive(st.db));
    ShrinkingKeepsCovered(st.db, Rebuild(st).state.db);
  }

  lemma FeedbackShrinks(st: Engine, id: MemoryId, kind: Feedback, now: int)
    ensures var db' := RecordFeedback(st, id, kind, now).state.db;
            && Shrinks(st.db, db') && Evolves(st.db, db')
            && (Grounded(st.db) ==> Grounded(db')) && (Covered(st.db) ==> Covered(db'))
            && (DisjointScopes(st.db.conflicts) ==> DisjointScopes(db'.conflicts))
  {
    ShrinkingKeepsCovered(st.db, RecordFeedback(st, id, kind, now).state.db);
  }

  // ---- Remembering one memory -----------------------------------------------

  /** No active memory contradicts this one. */
  ghost predicate Uncontradicted(db: Db, m: Memory) {
    forall id :: ActiveIn(db, id) ==> !Contradict(db.memories[id], m)
  }

  lemma InsertKeepsGrounded(db: Db, m: Memory)
    requires Grounded(db) && InsertMemory(db, m).Some?
    ensures Grounded(InsertMemory(db, m).value) && Evolves(db, InsertMemory(db, m).value)
  {}

  lemma GroundedDependsOnTables(db: Db, db': Db)
    requires db'.memories == db.memories && db'.order == db.order && db'.conflicts == db.conflicts
    ensures Grounded(db) <==> Grounded(db')
    ensures Covered(db) <==> Covered(db')
  {}

  /** An accepted insert leaves every contradiction covered exactly when no
      active memory contradicts the new one, whatever happens to its links and
      embedding. Manual add is this operation. */
  lemma RememberCoverage(st: Engine, m: Memory, linked: Option<seq<EntityId>>)
    requires Grounded(st.db) && Covered(st.db)
    ensures Grounded(Remember(st, m, linked).state.db) && Evolves(st.db, Remember(st, m, linked).state.db)
    ensures Covered(Remember(st, m, linked).state.db) <==>
            InsertMemory(st.db, m).None? || Uncontradicted(st.db, m)
  {
    RememberTables(st, m, linked);
    if InsertMemory(st.db, m).Some? {
      var db' := InsertMemory(st.db, m).value;
      InsertKeepsGrounded(st.db, m);
      GroundedDependsOnTables(db', Remember(st, m, linked).state.db);
      if Uncontradicted(st.db, m) {
        forall a, b | ActiveIn(db', a) && ActiveIn(db', b) && Contradict(db'.memories[a], db'.memories[b])
          ensures Contested(db'.conflicts, a, b)
        {
          ContradictSymmetric(db'.memories[a], db'.memories[b]);
          assert a == m.id || ActiveIn(st.db, a);
          assert b == m.id || ActiveIn(st.db, b);
        }
      } else {
        var id :| ActiveIn(st.db, id) && Contradict(st.db.memories[id], m);
        FreshIsUncontested(st.db, m.id, id);
        assert ActiveIn(db', id) && ActiveIn(db', m.id) && Contradict(db'.memories[id], db'.memories[m.id]);
      }
    } else {
      GroundedDependsOnTables(st.db, Remember(st, m, linked).state.db);
    }
  }

  lemma FreshIsUncontested(db: Db, minted: MemoryId, other: MemoryId)
    requires MembersExist(db) && minted !in db.memories
    ensures !Contested(db.conflicts, other, minted)
  {}

  // ---- The detector ---------------------------------------------------------

  /** The detector finds exactly the active memories that contradict the
      candidate. */
  lemma DetectIsContradiction(db: Db, c: Candidate, m: Memory)
    requires Keyed(db) && HasSpo(c)
    requires m.scope == c.scope && m.subj == c.subj && m.pred == c.pred && m.obj == c.obj
    ensures forall x :: x in Detect(db, c) <==> ActiveIn(db, x.id) && db.memories[x.id] == x && Contradict(x, m)
    ensures Detect(db, c) == [] <==> Uncontradicted(db, m)
  {
    var rows := MemoryRows(db.memories, db.order);
    MemoryRowsElements(db.memories, db.order);
    var onTopic := (x: Memory) => x.subj == Some(c.subj.value) && x.pred == Some(c.pred.value) && Active(x)
                                  && Intersects(c.scope, x.scope);
    FilterElements(rows, onTopic);
    var found := FindActiveBySubjectPredicate(db, c.scope, c.subj.value, c.pred.value);
    assert found == Filter(rows, onTopic);
    FilterElements(found, (x: Memory) => x.obj != c.obj);
    forall x
      ensures x in Detect(db, c) <==> ActiveIn(db, x.id) && db.memories[x.id] == x && Contradict(x, m)
    {
      assert x in Detect(db, c) <==> x in found && x.obj != c.obj;
      assert x in found <==> x in rows && onTopic(x);
      assert x in rows <==> x.id in db.memories && db.memories[x.id] == x;
    }
    assert Detect(db, c) != [] ==> Detect(db, c)[0] in Detect(db, c);
    assert forall id :: ActiveIn(db, id) && Contradict(db.memories[id], m) ==> db.memories[id] in Detect(db, c);
  }

  lemma {:induction false} IdsElements(memories: seq<Memory>)
    ensures |Ids(memories)| == |memories|
    ensures forall i :: 0 <= i < |memories| ==> Ids(memories)[i] == memories[i].id
    ensures forall id :: id in Ids(memories) <==> exists m :: m in memories && m.id == id
  {
    if memories != [] {
      IdsElements(memories[1..]);
      forall id
        ensures id in Ids(memories) <==> exists m :: m in memories && m.id == id
      {
        if m :| m in memories && m.id == id {
          assert m == memories[0] || m in memories[1..];
        }
      }
    }
  }

  // ---- Recording a conflict -------------------------------------------------

  function Extended(members: seq<MemoryId>, ids: seq<MemoryId>): seq<MemoryId>
    decreases |ids|
  {
    if ids == [] then members else Extended(AddMember(members, ids[0]), ids[1..])
  }

  lemma {:induction false} ExtendedElements(members: seq<MemoryId>, ids: seq<MemoryId>)
    ensures members <= Extended(members, ids)
    ensures forall id :: id in Extended(members, ids) <==> id in members || id in ids
    decreases |ids|
  {
    if ids != [] {
      ExtendedElements(AddMember(members, ids[0]), ids[1..]);
      assert forall id :: id in ids <==> id == ids[0] || id in ids[1..];
    }
  }

  /** Extending a conflict touches only that conflict's member list. */
  lemma {:induction false} ExtendAllEffect(db: Db, k: nat, ids: seq<MemoryId>)
    requires UniqueConflictIds(db.conflicts) && k < |db.conflicts|
    ensures var c := db.conflicts[k];
            ExtendAll(db, c.id, ids)
            == (db.(conflicts := db.conflicts[k := c.(members := Extended(c.members, ids))]), true)
    decreases |ids|
  {
    var c := db.conflicts[k];
    if ids == [] {
      assert db.conflicts[k := c.(members := c.members)] == db.conflicts;
    } else {
      var next := ExtendConflict(db, c.id, ids[0]).value;
      assert next.conflicts == db.conflicts[k := c.(members := AddMember(c.members, ids[0]))];
      ExtendAllEffect(next, k, ids[1..]);
      assert next.conflicts[k := c.(members := Extended(c.members, ids))]
             == db.conflicts[k := c.(members := Extended(c.members, ids))];
    }
  }

  /** The conflict a candidate is filed under: the oldest matching one, else the
      new one at the end. */
  function Filed(conflicts: seq<Conflict>, w: Minted, competing: seq<Memory>): seq<Conflict>
    requires HasSpo(w.candidate)
  {
    var c := w.candidate;
    match FindUnresolved(conflicts, c.scope, c.subj.value, c.pred.value)
    case Some(k) =>
      conflicts[k := conflicts[k].(members := Extended(conflicts[k].members, Ids(competing) + [w.memoryId]))]
    case None => conflicts + [NewConflict(w, competing)]
  }

  /** The k-th conflict afterwards is unresolved, is the first on the candidate's
      topic whose scope meets it (a new one if there is none), and holds the
      candidate, everything competing with it and its own earlier members; every
      other conflict is as it was. */
  ghost predicate FiledAt(before: seq<Conflict>, after: seq<Conflict>, k: nat, w: Minted, competing: seq<Memory>) {
    && k < |after|
    && |after| == (if k < |before| then |before| else k + 1)
    && k <= |before|
    && (forall i :: 0 <= i < |before| && i != k ==> after[i] == before[i])
    && after[k].resolution == Unresolved
    && after[k].subj == w.candidate.subj && after[k].pred == w.candidate.pred
    && w.memoryId in after[k].members
    && (forall m :: m in competing ==> m.id in after[k].members)
    && (forall id :: id in after[k].members ==>
          || id == w.memoryId
          || (exists m :: m in competing && m.id == id)
          || (k < |before| && id in before[k].members))
    && (forall i :: 0 <= i < k && SameTopic(before[i], after[k]) ==> !Intersects(w.candidate.scope, before[i].scope))
    && (if k < |before| then
          && after[k] == before[k].(members := after[k].members)
          && before[k].members <= after[k].members
          && Intersects(w.candidate.scope, before[k].scope)
        else
          after[k].id == w.conflictId && after[k].scope == w.candidate.scope)
  }

  lemma FiledSomewhere(conflicts: seq<Conflict>, w: Minted, competing: seq<Memory>) returns (k: nat)
    requires HasSpo(w.candidate)
    ensures FiledAt(conflicts, Filed(conflicts, w, competing), k, w, competing)
  {
    var c := w.candidate;
    var ids := Ids(competing) + [w.memoryId];
    IdsElements(competing);
    var found := FindUnresolved(conflicts, c.scope, c.subj.value, c.pred.value);
    var after := Filed(conflicts, w, competing);
    assert forall x :: x in competing ==> x.id in ids;
    assert w.memoryId in ids;
    if found.Some? {
      k := found.value;
      ExtendedElements(conflicts[k].members, ids);
      assert after[k].members == Extended(conflicts[k].members, ids);
    } else {
      k := |conflicts|;
      assert after[k] == NewConflict(w, competing);
    }
    forall i | 0 <= i < k && SameTopic(conflicts[i], after[k])
      ensures !Intersects(c.scope, conflicts[i].scope)
    {
      assert !Dedups(conflicts[i], c.scope, c.subj.value, c.pred.value);
    }
  }

  /** There is a place to file the candidate: an unresolved conflict on its topic
      that its scope meets, or the id of a new one. */
  predicate Filable(conflicts: seq<Conflict>, w: Minted)
    requires HasSpo(w.candidate)
  {
    || FindUnresolved(conflicts, w.candidate.scope, w.candidate.subj.value, w.candidate.pred.value).Some?
    || FindConflict(conflicts, w.conflictId).None?
  }

  /** Recording a conflict either completes, filing candidate and competition
      under one conflict, or fails with the conflicts table unchanged. Once its
      row is stored and indexed it completes exactly when there is a place. */
  lemma RecordConflictFiles(st: Engine, w: Minted, competing: seq<Memory>)
    requires UniqueConflictIds(st.db.conflicts) && HasSpo(w.candidate)
    ensures var o := Remember(st, ToMemory(w, ComputeConfidence(w.candidate), false), w.linked);
            var o' := RecordConflict(st, w, competing);
            if o'.Done? then
              && o.Done?
              && o'.state == o.state.(db := o.state.db.(conflicts := Filed(st.db.conflicts, w, competing)))
              && UniqueConflictIds(o'.state.db.conflicts)
            else o'.state == o.state
    ensures Remember(st, ToMemory(w, ComputeConfidence(w.candidate), false), w.linked).Done? ==>
              (RecordConflict(st, w, competing).Done? <==> Filable(st.db.conflicts, w))
  {
    var c := w.candidate;
    var m := ToMemory(w, ComputeConfidence(c), false);
    RememberTables(st, m, w.linked);
    var o := Remember(st, m, w.linked);
    var found := FindUnresolved(st.db.conflicts, c.scope, c.subj.value, c.pred.value);
    if found.Some? && o.Done? {
      ExtendAllEffect(o.state.db, found.value, Ids(competing) + [w.memoryId]);
    }
  }

  /** Filing keeps the conflict table well formed, keeps scopes on one topic
      disjoint, and contests the candidate with everything competing with it. */
  lemma FilingIsSound(db: Db, db': Db, k: nat, w: Minted, competing: seq<Memory>)
    requires Grounded(db) && Evolves(db, db') && Keyed(db') && w.memoryId in db'.memories
    requires FiledAt(db.conflicts, db'.conflicts, k, w, competing) && UniqueConflictIds(db'.conflicts)
    requires forall m :: m in competing ==> m.id in db.memories
    ensures Grounded(db')
    ensures DisjointScopes(db.conflicts) ==> DisjointScopes(db'.conflicts)
    ensures forall a, b :: Contested(db.conflicts, a, b) ==> Contested(db'.conflicts, a, b)
    ensures forall m :: m in competing ==>
              Contested(db'.conflicts, m.id, w.memoryId) && Contested(db'.conflicts, w.memoryId, m.id)
  {
    forall i, id | 0 <= i < |db'.conflicts| && id in db'.conflicts[i].members
      ensures id in db'.memories
    {
      if i != k {
        assert id in db.conflicts[i].members;
      }
    }
    forall a, b | Contested(db.conflicts, a, b)
      ensures Contested(db'.conflicts, a, b)
    {
      var i :| 0 <= i < |db.conflicts| && db.conflicts[i].resolution == Unresolved
               && a in db.conflicts[i].members && b in db.conflicts[i].members;
      assert db'.conflicts[i].resolution == Unresolved && a in db'.conflicts[i].members
             && b in db'.conflicts[i].members;
    }
    if DisjointScopes(db.conflicts) {
      forall i, j | 0 <= i < j < |db'.conflicts| && SameTopic(db'.conflicts[i], db'.conflicts[j])
        ensures !Intersects(db'.conflicts[i].scope, db'.conflicts[j].scope)
      {
        if j < |db.conflicts| {
          assert SameTopic(db.conflicts[i], db.conflicts[j]);
        } else {
          assert j == k && SameTopic(db.conflicts[i], db'.conflicts[k]);
        }
      }
    }
  }
}
