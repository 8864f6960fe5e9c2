/** Which memories a context read considers, and what it knows of each: exactly
    those that a live neighbour, a named entity or recency brings in. */
module MergedSources {
  import opened Domain
  import opened Sorting
  import opened Tables
  import opened VectorIndexes
  import opened Engines
  import opened IndexInvariant
  import opened Conflicts
  import opened ReadPath
  import opened SearchEffects

  // ---- The newest of the table ----------------------------------------------

  /** Updated later or, at one time, with the greater id. */
  predicate Newer(a: Memory, b: Memory) {
    a.updatedAt > b.updatedAt || (a.updatedAt == b.updatedAt && a.id > b.id)
  }

  ghost function NewerIds(db: Db, keep: Memory -> bool, m: Memory): set<MemoryId> {
    set id | id in db.memories && keep(db.memories[id]) && Newer(db.memories[id], m)
  }

  /** A stored memory of this sort, with fewer than n newer ones. */
  ghost predicate AmongNewest(db: Db, keep: Memory -> bool, n: nat, m: Memory) {
    m.id in db.memories && db.memories[m.id] == m && keep(m) && |NewerIds(db, keep, m)| < n
  }

  lemma {:induction false} IdSetSize(s: seq<Memory>)
    requires forall i, j :: 0 <= i < j < |s| ==> s[i].id != s[j].id
    ensures |set m | m in s :: m.id| == |s|
    decreases |s|
  {
    if s != [] {
      var front, last := s[..|s| - 1], s[|s| - 1];
      assert forall m :: m in s <==> m in front || m == last;
      IdSetSize(front);
      var ids := set m | m in front :: m.id;
      assert last.id !in ids;
      assert (set m | m in s :: m.id) == ids + {last.id};
    }
  }

  /** The rows of one sort, newest first: distinct ids, strictly descending. */
  lemma NewestListed(db: Db, keep: Memory -> bool)
    requires Keyed(db)
    ensures var s := Sort(Filter(MemoryRows(db.memories, db.order), keep), NewestFirst);
            && (forall m :: m in s <==> m.id in db.memories && db.memories[m.id] == m && keep(m))
            && (forall i, j :: 0 <= i < j < |s| ==> s[i].id != s[j].id && Newer(s[i], s[j]))
  {
    var rows := MemoryRows(db.memories, db.order);
    var chosen := Filter(rows, keep);
    MemoryRowsElements(db.memories, db.order);
    RowsDistinct(db.memories, db.order);
    FilterElements(rows, keep);
    FilterKeepsNoDuplicates(rows, keep);
    SortElements(chosen, NewestFirst);
    SortKeepsNoDuplicates(chosen, NewestFirst);
    SortSorts(chosen, NewestFirst);
    StrictlyNewer(db.memories, Sort(chosen, NewestFirst));
  }

  lemma StrictlyNewer(memories: map<MemoryId, Memory>, s: seq<Memory>)
    requires NoDuplicates(s) && SortedBy(s, NewestFirst)
    requires forall m :: m in s ==> m.id in memories && memories[m.id] == m
    ensures forall i, j :: 0 <= i < j < |s| ==> s[i].id != s[j].id && Newer(s[i], s[j])
  {
    forall i, j | 0 <= i < j < |s|
      ensures s[i].id != s[j].id && Newer(s[i], s[j])
    {
      assert s[i] in s && s[j] in s && s[i] != s[j] && NewestFirst(s[i], s[j]);
    }
  }

  lemma {:induction false} RowsDistinct(memories: map<MemoryId, Memory>, order: seq<MemoryId>)
    requires NoDuplicates(order) && forall id :: id in memories ==> memories[id].id == id
    ensures NoDuplicates(MemoryRows(memories, order))
    ensures forall m :: m in MemoryRows(memories, order) ==> m.id in order
  {
    if order != [] {
      assert forall i :: 0 <= i < |order[1..]| ==> order[1..][i] == order[i + 1];
      RowsDistinct(memories, order[1..]);
      assert order[0] !in order[1..];
    }
  }

  /** Taking the first n of them is taking those with fewer than n newer ones. */
  lemma TakeIsAmongNewest(db: Db, keep: Memory -> bool, n: nat, m: Memory)
    requires Keyed(db)
    ensures m in Take(Sort(Filter(MemoryRows(db.memories, db.order), keep), NewestFirst), n) <==>
            AmongNewest(db, keep, n, m)
  {
    var s := Sort(Filter(MemoryRows(db.memories, db.order), keep), NewestFirst);
    NewestListed(db, keep);
    if m in s {
      var k :| 0 <= k < |s| && s[k] == m;
      NewerIsPrefix(db, keep, s, k);
      if k < n {
        assert Take(s, n)[k] == m;
      } else {
        forall i | 0 <= i < |Take(s, n)|
          ensures Take(s, n)[i] != m
        {
          assert s[i].id != s[k].id;
        }
      }
    } else {
      forall i | 0 <= i < |Take(s, n)|
        ensures Take(s, n)[i] != m
      {
        assert s[i] in s;
      }
    }
  }

  lemma NewerIsPrefix(db: Db, keep: Memory -> bool, s: seq<Memory>, k: nat)
    requires k < |s| && forall m :: m in s <==> m.id in db.memories && db.memories[m.id] == m && keep(m)
    requires forall i, j :: 0 <= i < j < |s| ==> s[i].id != s[j].id && Newer(s[i], s[j])
    requires forall id :: id in db.memories ==> db.memories[id].id == id
    ensures |NewerIds(db, keep, s[k])| == k
  {
    var ids := set m | m in s[..k] :: m.id;
    IdSetSize(s[..k]);
    forall id
      ensures id in ids <==> id in NewerIds(db, keep, s[k])
    {
      if id in ids {
        var i :| 0 <= i < k && s[i].id == id;
        assert s[i] in s && Newer(s[i], s[k]);
      }
      if id in NewerIds(db, keep, s[k]) {
        var i :| 0 <= i < |s| && s[i] == db.memories[id];
        assert i < k;
        assert s[..k][i] == s[i];
      }
    }
    assert ids == NewerIds(db, keep, s[k]);
  }

  // ---- The three sources ----------------------------------------------------

  ghost predicate InScope(scopes: Scope, scope: Scope) {
    exists s :: s in scope && Asked(scopes, s)
  }

  lemma InScopeIsExpanded(scopes: Scope, scope: Scope)
    ensures Intersects(ExpandInherited(scopes), scope) <==> InScope(scopes, scope)
  {
    forall s
      ensures s in ExpandInherited(scopes) <==> Asked(scopes, s)
    {
      AskedIsExpanded(scopes, s);
    }
  }

  /** A neighbour the graph returned stands for the memory, in scope. */
  ghost predicate NearBy(db: Db, index: Index, req: Request, id: MemoryId, n: Neighbour) {
    && n in req.neighbours && n.seqId in index.side && index.side[n.seqId].memoryId == id && id in db.memories
    && InScope(req.scope, index.side[n.seqId].scope)
  }

  ghost predicate ByVector(db: Db, index: Index, req: Request, id: MemoryId) {
    exists n :: NearBy(db, index, req, id, n)
  }

  /** The similarity of some such neighbour, and of none a greater one. */
  ghost predicate BestNearBy(db: Db, index: Index, req: Request, id: MemoryId, similarity: Option<real>) {
    && similarity.Some?
    && (exists n :: NearBy(db, index, req, id, n) && n.similarity == similarity.value)
    && forall n :: NearBy(db, index, req, id, n) ==> n.similarity <= similarity.value
  }

  function LinkedTo(db: Db, entity: EntityId): Memory -> bool {
    (m: Memory) => (m.id, entity) in db.links && Active(m)
  }

  /** Among the 16 newest active memories linked to one of the entities. */
  ghost predicate AmongLinked(db: Db, anchors: seq<EntityId>, m: Memory) {
    exists entity :: entity in anchors && AmongNewest(db, LinkedTo(db, entity), 16, m)
  }

  /** ... the query names, and in scope. */
  ghost predicate ByEntity(db: Db, req: Request, id: MemoryId) {
    && id in db.memories && InScope(req.scope, db.memories[id].scope)
    && AmongLinked(db, req.anchors, db.memories[id])
  }

  /** Among the 32 newest active memories, and in scope. */
  ghost predicate ByRecency(db: Db, req: Request, id: MemoryId) {
    && id in db.memories && InScope(req.scope, db.memories[id].scope)
    && AmongNewest(db, Active, 32, db.memories[id])
  }

  // ---- Merging one source ---------------------------------------------------

  ghost predicate OwnMemories(memories: map<MemoryId, Memory>, items: map<MemoryId, WorkItem>) {
    forall id :: id in items ==> id in memories && items[id].memory == memories[id]
  }

  ghost predicate Rows(memories: map<MemoryId, Memory>, listed: seq<Memory>) {
    forall m :: m in listed ==> m.id in memories && memories[m.id] == m
  }

  ghost predicate Listed(listed: seq<Memory>, scopes: Scope, id: MemoryId) {
    exists m :: m in listed && m.id == id && Intersects(scopes, m.scope)
  }

  /** What a listing does to the item of one memory. */
  ghost predicate ListedInto(
    items: map<MemoryId, WorkItem>, items': map<MemoryId, WorkItem>, hit: bool, source: Source, id: MemoryId)
  {
    && (id in items' <==> id in items || hit)
    && (id in items' ==>
          var before := if id in items then items[id] else WorkItem(items'[id].memory, {}, None, false);
          items'[id] == if hit then before.(sources := before.sources + {source},
                                            entityMatch := before.entityMatch || source == FromEntity)
                        else before)
  }

  lemma {:induction false} MergeListedExactly(
    memories: map<MemoryId, Memory>, items: map<MemoryId, WorkItem>, listed: seq<Memory>, scopes: Scope,
    source: Source, id: MemoryId)
    requires OwnMemories(memories, items) && Rows(memories, listed)
    ensures var items' := MergeListed(items, listed, scopes, source);
            OwnMemories(memories, items') && ListedInto(items, items', Listed(listed, scopes, id), source, id)
    decreases |listed|
  {
    if listed != [] {
      var m := listed[0];
      assert m in listed;
      assert forall x :: x in listed <==> x == m || x in listed[1..];
      if !Intersects(scopes, m.scope) {
        MergeListedExactly(memories, items, listed[1..], scopes, source, id);
        assert Listed(listed, scopes, id) <==> Listed(listed[1..], scopes, id);
      } else {
        var w := ItemFor(items, m);
        var next :=
          items[m.id := w.(sources := w.sources + {source}, entityMatch := w.entityMatch || source == FromEntity)];
        MergeListedExactly(memories, next, listed[1..], scopes, source, id);
        assert Listed(listed, scopes, id) <==> m.id == id || Listed(listed[1..], scopes, id);
      }
    }
  }

  ghost predicate HitFor(
    hits: seq<IndexHit>, scopes: Scope, memories: map<MemoryId, Memory>, id: MemoryId, h: IndexHit)
  {
    h in hits && h.memoryId == id && id in memories && Intersects(scopes, h.scope)
  }

  /** The item of one memory after the hits: brought in by a hit, with the best
      similarity among them and what was known. */
  ghost predicate HitInto(
    items: map<MemoryId, WorkItem>, items': map<MemoryId, WorkItem>, hits: seq<IndexHit>, scopes: Scope,
    memories: map<MemoryId, Memory>, id: MemoryId)
  {
    var hit := exists h :: HitFor(hits, scopes, memories, id, h);
    && (id in items' <==> id in items || hit)
    && (id in items' ==>
          var before := if id in items then items[id] else WorkItem(items'[id].memory, {}, None, false);
          if !hit then items'[id] == before
          else
            && items'[id] == before.(sources := before.sources + {FromVector}, similarity := items'[id].similarity)
            && items'[id].similarity.Some?
            && (before.similarity == items'[id].similarity
                || exists h :: HitFor(hits, scopes, memories, id, h) && items'[id].similarity == Some(h.similarity))
            && (before.similarity.Some? ==> items'[id].similarity.value >= before.similarity.value)
            && forall h :: HitFor(hits, scopes, memories, id, h) ==> items'[id].similarity.value >= h.similarity)
  }

  lemma {:induction false} MergeVectorExactly(
    memories: map<MemoryId, Memory>, items: map<MemoryId, WorkItem>, hits: seq<IndexHit>, scopes: Scope, id: MemoryId)
    requires OwnMemories(memories, items) && forall i :: i in memories ==> memories[i].id == i
    ensures var items' := MergeVector(items, hits, scopes, memories);
            OwnMemories(memories, items') && HitInto(items, items', hits, scopes, memories, id)
    decreases |hits|
  {
    if hits != [] {
      var first := hits[0];
      assert first in hits;
      assert forall x :: x in hits <==> x == first || x in hits[1..];
      if !Intersects(scopes, first.scope) || first.memoryId !in memories {
        MergeVectorExactly(memories, items, hits[1..], scopes, id);
        assert forall h :: HitFor(hits, scopes, memories, id, h) <==> HitFor(hits[1..], scopes, memories, id, h);
      } else {
        var m := memories[first.memoryId];
        var w := ItemFor(items, m);
        var next := items[m.id :=
          w.(sources := w.sources + {FromVector}, similarity := Some(Better(w.similarity, first.similarity)))];
        MergeVectorExactly(memories, next, hits[1..], scopes, id);
        HitsAddUp(items, next, MergeVector(items, hits, scopes, memories), hits, scopes, memories, id);
      }
    }
  }

  lemma HitsAddUp(
    items: map<MemoryId, WorkItem>, next: map<MemoryId, WorkItem>, items': map<MemoryId, WorkItem>,
    hits: seq<IndexHit>, scopes: Scope, memories: map<MemoryId, Memory>, id: MemoryId)
    requires hits != [] && Intersects(scopes, hits[0].scope) && hits[0].memoryId in memories
    requires memories[hits[0].memoryId].id == hits[0].memoryId
    requires OwnMemories(memories, items) && OwnMemories(memories, items')
    requires var w := ItemFor(items, memories[hits[0].memoryId]);
             next == items[hits[0].memoryId :=
               w.(sources := w.sources + {FromVector}, similarity := Some(Better(w.similarity, hits[0].similarity)))]
    requires HitInto(next, items', hits[1..], scopes, memories, id)
    ensures HitInto(items, items', hits, scopes, memories, id)
  {
    var first := hits[0];
    assert forall x :: x in hits <==> x == first || x in hits[1..];
    forall h
      ensures HitFor(hits, scopes, memories, id, h) <==>
              HitFor(hits[1..], scopes, memories, id, h) || (h == first && first.memoryId == id)
    {}
    if first.memoryId == id {
      assert HitFor(hits, scopes, memories, id, first);
    }
  }

  // ---- All of them ----------------------------------------------------------

  lemma {:induction false} LookupExactly(side: map<nat, Point>, neighbours: seq<Neighbour>, h: IndexHit)
    ensures h in Lookup(side, neighbours) <==>
            exists n :: n in neighbours && n.seqId in side && h == HitOf(side, n)
  {
    if neighbours != [] {
      LookupExactly(side, neighbours[1..], h);
      assert forall n :: n in neighbours <==> n == neighbours[0] || n in neighbours[1..];
    }
  }

  lemma HitsAreNearBy(db: Db, index: Index, req: Request, id: MemoryId)
    ensures forall n :: NearBy(db, index, req, id, n) ==>
              HitFor(Search(index, req.neighbours), ExpandInherited(req.scope), db.memories, id, HitOf(index.side, n))
    ensures forall h :: HitFor(Search(index, req.neighbours), ExpandInherited(req.scope), db.memories, id, h) ==>
              exists n :: NearBy(db, index, req, id, n) && n.similarity == h.similarity
  {
    var hits := Search(index, req.neighbours);
    SortElements(Lookup(index.side, req.neighbours), MostSimilarFirst);
    forall n | NearBy(db, index, req, id, n)
      ensures HitFor(hits, ExpandInherited(req.scope), db.memories, id, HitOf(index.side, n))
    {
      LookupExactly(index.side, req.neighbours, HitOf(index.side, n));
      InScopeIsExpanded(req.scope, index.side[n.seqId].scope);
    }
    forall h | HitFor(hits, ExpandInherited(req.scope), db.memories, id, h)
      ensures exists n :: NearBy(db, index, req, id, n) && n.similarity == h.similarity
    {
      LookupExactly(index.side, req.neighbours, h);
      InScopeIsExpanded(req.scope, h.scope);
      var n :| n in req.neighbours && n.seqId in index.side && h == HitOf(index.side, n);
      assert NearBy(db, index, req, id, n);
    }
  }

  lemma {:induction false} AddUnseenExactly(memories: map<MemoryId, Memory>, hits: seq<Memory>, more: seq<Memory>)
    requires Rows(memories, hits) && Rows(memories, more)
    ensures Rows(memories, AddUnseen(hits, more))
    ensures forall m :: m in AddUnseen(hits, more) <==> m in hits || m in more
    decreases |more|
  {
    if more != [] {
      assert more[0] in more;
      IdsElements(hits);
      assert forall x :: x in more <==> x == more[0] || x in more[1..];
      if more[0].id in Ids(hits) {
        var x :| x in hits && x.id == more[0].id;
        assert x == more[0];
        AddUnseenExactly(memories, hits, more[1..]);
      } else {
        AddUnseenExactly(memories, hits + [more[0]], more[1..]);
      }
    }
  }

  lemma ForEntityExactly(db: Db, entity: EntityId, scopes: Scope)
    requires Keyed(db)
    ensures Rows(db.memories, MemoriesForEntity(db, entity, scopes, 16))
    ensures forall m :: m in MemoriesForEntity(db, entity, scopes, 16) <==>
              AmongNewest(db, LinkedTo(db, entity), 16, m) && Intersects(scopes, m.scope)
  {
    var keep := (m: Memory) => (m.id, entity) in db.links && Active(m);
    var rows := MemoryRows(db.memories, db.order);
    SameFilter(rows, keep, LinkedTo(db, entity));
    var newest := Take(Sort(Filter(rows, keep), NewestFirst), 16);
    FilterElements(newest, (m: Memory) => Intersects(scopes, m.scope));
    forall x
      ensures x in newest <==> AmongNewest(db, LinkedTo(db, entity), 16, x)
    {
      TakeIsAmongNewest(db, LinkedTo(db, entity), 16, x);
    }
  }

  lemma {:induction false} SameFilter<T>(s: seq<T>, keep: T -> bool, keep': T -> bool)
    requires forall x :: x in s ==> keep(x) == keep'(x)
    ensures Filter(s, keep) == Filter(s, keep')
  {
    if s != [] {
      assert s[0] in s;
      SameFilter(s[1..], keep, keep');
    }
  }

  lemma {:induction false} AnchoredExactly(db: Db, anchors: seq<EntityId>, scopes: Scope, hits: seq<Memory>)
    requires Keyed(db) && Rows(db.memories, hits)
    ensures Rows(db.memories, EntityAnchored(db, anchors, scopes, hits))
    ensures forall m :: m in EntityAnchored(db, anchors, scopes, hits) <==>
              m in hits || (Intersects(scopes, m.scope) && AmongLinked(db, anchors, m))
    decreases |anchors|
  {
    if anchors != [] {
      var more := MemoriesForEntity(db, anchors[0], scopes, 16);
      ForEntityExactly(db, anchors[0], scopes);
      AddUnseenExactly(db.memories, hits, more);
      AnchoredExactly(db, anchors[1..], scopes, AddUnseen(hits, more));
      assert forall e :: e in anchors <==> e == anchors[0] || e in anchors[1..];
      forall m
        ensures AmongLinked(db, anchors, m) <==>
                AmongNewest(db, LinkedTo(db, anchors[0]), 16, m) || AmongLinked(db, anchors[1..], m)
      {}
    }
  }

  lemma EntityListed(db: Db, req: Request, id: MemoryId)
    requires Keyed(db)
    ensures var scopes := ExpandInherited(req.scope);
            && Rows(db.memories, EntityAnchored(db, req.anchors, scopes, []))
            && (Listed(EntityAnchored(db, req.anchors, scopes, []), scopes, id) <==> ByEntity(db, req, id))
  {
    var scopes := ExpandInherited(req.scope);
    var listed := EntityAnchored(db, req.anchors, scopes, []);
    AnchoredExactly(db, req.anchors, scopes, []);
    if id in db.memories {
      InScopeIsExpanded(req.scope, db.memories[id].scope);
      if ByEntity(db, req, id) {
        assert db.memories[id] in listed;
      }
    }
  }

  lemma RecentListed(db: Db, req: Request, id: MemoryId)
    requires Keyed(db)
    ensures var scopes := ExpandInherited(req.scope);
            && Rows(db.memories, RecentInScope(db, scopes, 32))
            && (Listed(RecentInScope(db, scopes, 32), scopes, id) <==> ByRecency(db, req, id))
  {
    var scopes := ExpandInherited(req.scope);
    var newest := Take(ListActive(db), 32);
    FilterElements(newest, (m: Memory) => Intersects(scopes, m.scope));
    forall x
      ensures x in newest <==> AmongNewest(db, Active, 32, x)
    {
      TakeIsAmongNewest(db, Active, 32, x);
    }
    if id in db.memories {
      InScopeIsExpanded(req.scope, db.memories[id].scope);
      if ByRecency(db, req, id) {
        assert db.memories[id] in RecentInScope(db, scopes, 32);
      }
    }
  }

  /** A memory is considered exactly when a neighbour stands for it in scope, or it
      is among the 16 newest of an entity the query names and in scope, or among
      the 32 newest and in scope. The item holds the stored memory, names exactly
      the sources that bring it in, and has the best similarity of its
      neighbours. */
  lemma MergedItemsExactly(db: Db, index: Index, req: Request, id: MemoryId)
    requires Keyed(db)
    ensures var items := MergedItems(db, index, req);
            && (id in items <==> ByVector(db, index, req, id) || ByEntity(db, req, id) || ByRecency(db, req, id))
            && (id in items ==>
                  var item := items[id];
                  && id in db.memories && item.memory == db.memories[id]
                  && (FromVector in item.sources <==> ByVector(db, index, req, id))
                  && (FromEntity in item.sources <==> ByEntity(db, req, id))
                  && (FromRecent in item.sources <==> ByRecency(db, req, id))
                  && (item.entityMatch <==> ByEntity(db, req, id))
                  && (item.similarity.Some? <==> ByVector(db, index, req, id))
                  && (item.similarity.Some? ==> BestNearBy(db, index, req, id, item.similarity)))
  {
    var scopes := ExpandInherited(req.scope);
    var fromVector := MergeVector(map[], Search(index, req.neighbours), scopes, db.memories);
    var anchored := EntityAnchored(db, req.anchors, scopes, []);
    var fromEntity := MergeListed(fromVector, anchored, scopes, FromEntity);
    VectorItem(db, index, req, id);
    EntityListed(db, req, id);
    MergeListedExactly(db.memories, fromVector, anchored, scopes, FromEntity, id);
    RecentListed(db, req, id);
    MergeListedExactly(db.memories, fromEntity, RecentInScope(db, scopes, 32), scopes, FromRecent, id);
    ThreeSources(fromVector, fromEntity, MergedItems(db, index, req),
                 ByVector(db, index, req, id), ByEntity(db, req, id), ByRecency(db, req, id), id);
  }

  /** The item of one memory after all three sources. */
  lemma ThreeSources(
    one: map<MemoryId, WorkItem>, two: map<MemoryId, WorkItem>, three: map<MemoryId, WorkItem>,
    near: bool, linked: bool, recent: bool, id: MemoryId)
    requires id in one <==> near
    requires id in one ==> one[id].sources == {FromVector} && !one[id].entityMatch
    requires ListedInto(one, two, linked, FromEntity, id) && ListedInto(two, three, recent, FromRecent, id)
    ensures id in three <==> near || linked || recent
    ensures id in three ==>
              && (FromVector in three[id].sources <==> near) && (FromEntity in three[id].sources <==> linked)
              && (FromRecent in three[id].sources <==> recent) && (three[id].entityMatch <==> linked)
              && three[id].similarity == if near then one[id].similarity else None
  {}

  /** The item of the vector source alone. */
  lemma VectorItem(db: Db, index: Index, req: Request, id: MemoryId)
    requires Keyed(db)
    ensures var items := MergeVector(map[], Search(index, req.neighbours), ExpandInherited(req.scope), db.memories);
            && OwnMemories(db.memories, items)
            && (id in items <==> ByVector(db, index, req, id))
            && (id in items ==> items[id].sources == {FromVector} && !items[id].entityMatch)
            && (id in items ==> BestNearBy(db, index, req, id, items[id].similarity))
  {
    var scopes := ExpandInherited(req.scope);
    var hits := Search(index, req.neighbours);
    var items := MergeVector(map[], hits, scopes, db.memories);
    MergeVectorExactly(db.memories, map[], hits, scopes, id);
    HitItem(items, hits, scopes, db.memories, id);
    AnyHitIsNearBy(db, index, req, id);
    if id in items {
      BestHitIsNearBy(db, index, req, id, items[id].similarity);
    }
  }

  lemma AnyHitIsNearBy(db: Db, index: Index, req: Request, id: MemoryId)
    ensures var hits, scopes := Search(index, req.neighbours), ExpandInherited(req.scope);
            (exists h :: HitFor(hits, scopes, db.memories, id, h)) <==> ByVector(db, index, req, id)
  {
    var hits, scopes := Search(index, req.neighbours), ExpandInherited(req.scope);
    HitsAreNearBy(db, index, req, id);
    if n :| NearBy(db, index, req, id, n) {
      assert HitFor(hits, scopes, db.memories, id, HitOf(index.side, n));
    }
  }

  lemma BestHitIsNearBy(db: Db, index: Index, req: Request, id: MemoryId, similarity: Option<real>)
    requires similarity.Some?
    requires var hits, scopes := Search(index, req.neighbours), ExpandInherited(req.scope);
             && (exists h :: HitFor(hits, scopes, db.memories, id, h) && similarity == Some(h.similarity))
             && forall h :: HitFor(hits, scopes, db.memories, id, h) ==> similarity.value >= h.similarity
    ensures BestNearBy(db, index, req, id, similarity)
  {
    var hits, scopes := Search(index, req.neighbours), ExpandInherited(req.scope);
    HitsAreNearBy(db, index, req, id);
    var h :| HitFor(hits, scopes, db.memories, id, h) && similarity == Some(h.similarity);
    var n :| NearBy(db, index, req, id, n) && n.similarity == h.similarity;
    forall n | NearBy(db, index, req, id, n)
      ensures n.similarity <= similarity.value
    {
      assert HitFor(hits, scopes, db.memories, id, HitOf(index.side, n));
    }
  }

  lemma HitItem(
    items: map<MemoryId, WorkItem>, hits: seq<IndexHit>, scopes: Scope, memories: map<MemoryId, Memory>, id: MemoryId)
    requires HitInto(map[], items, hits, scopes, memories, id)
    ensures id in items <==> exists h :: HitFor(hits, scopes, memories, id, h)
    ensures id in items ==>
              && items[id].sources == {FromVector} && !items[id].entityMatch && items[id].similarity.Some?
              && (exists h :: HitFor(hits, scopes, memories, id, h) && items[id].similarity == Some(h.similarity))
              && forall h :: HitFor(hits, scopes, memories, id, h) ==> items[id].similarity.value >= h.similarity
  {}
}
