/** What a context package may contain, given the index invariant. */
module ReadPathSafety {
  import opened Domain
  import opened Sorting
  import opened Tables
  import opened VectorIndexes
  import opened Engines
  import opened IndexInvariant
  import opened Conflicts
  import opened ReadPath

  /** A stored, active memory in one of the scopes. */
  ghost predicate Eligible(db: Db, m: Memory, scopes: Scope) {
    m.id in db.memories && db.memories[m.id] == m && Active(m) && Intersects(scopes, m.scope)
  }

  ghost predicate ItemsEligible(db: Db, items: map<MemoryId, WorkItem>, scopes: Scope) {
    forall id :: id in items ==> items[id].memory.id == id && Eligible(db, items[id].memory, scopes)
  }

  lemma {:induction false} MergeVectorEligible(
    st: Engine, dimOf: string -> nat, items: map<MemoryId, WorkItem>, hits: seq<IndexHit>, scopes: Scope)
    requires Safe(st, dimOf) && ItemsEligible(st.db, items, scopes)
    requires forall h :: h in hits ==>
               exists s :: s in st.index.side && st.index.side[s] == Point(h.memoryId, h.scope, h.kind)
    ensures ItemsEligible(st.db, MergeVector(items, hits, scopes, st.db.memories), scopes)
    decreases |hits|
  {
    if hits != [] {
      var h := hits[0];
      assert h in hits;
      var s :| s in st.index.side && st.index.side[s] == Point(h.memoryId, h.scope, h.kind);
      assert RowSound(st.db, st.db.rows[s], dimOf);
      assert forall x :: x in hits[1..] ==> x in hits;
      if !Intersects(scopes, h.scope) || h.memoryId !in st.db.memories {
        MergeVectorEligible(st, dimOf, items, hits[1..], scopes);
      } else {
        var m := st.db.memories[h.memoryId];
        var w := ItemFor(items, m);
        var next := items[m.id :=
          w.(sources := w.sources + {FromVector}, similarity := Some(Better(w.similarity, h.similarity)))];
        MergeVectorEligible(st, dimOf, next, hits[1..], scopes);
      }
    }
  }

  lemma {:induction false} MergeListedEligible(
    db: Db, items: map<MemoryId, WorkItem>, listed: seq<Memory>, scopes: Scope, source: Source)
    requires ItemsEligible(db, items, scopes)
    requires forall m :: m in listed ==> m.id in db.memories && db.memories[m.id] == m && Active(m)
    ensures ItemsEligible(db, MergeListed(items, listed, scopes, source), scopes)
    decreases |listed|
  {
    if listed != [] {
      var m := listed[0];
      assert m in listed;
      assert forall x :: x in listed[1..] ==> x in listed;
      if !Intersects(scopes, m.scope) {
        MergeListedEligible(db, items, listed[1..], scopes, source);
      } else {
        var w := ItemFor(items, m);
        var next :=
          items[m.id := w.(sources := w.sources + {source}, entityMatch := w.entityMatch || source == FromEntity)];
        MergeListedEligible(db, next, listed[1..], scopes, source);
      }
    }
  }

  ghost predicate StoredActive(db: Db, listed: seq<Memory>) {
    forall m :: m in listed ==> m.id in db.memories && db.memories[m.id] == m && Active(m)
  }

  /** A limited, sorted, filtered listing holds only rows of the table. */
  lemma QueryElements(db: Db, keep: Memory -> bool, limit: nat, scopes: Scope)
    requires Keyed(db)
    requires forall m :: keep(m) ==> Active(m)
    ensures StoredActive(db, Filter(Take(Sort(Filter(MemoryRows(db.memories, db.order), keep), NewestFirst), limit),
                                    (m: Memory) => Intersects(scopes, m.scope)))
  {
    var rows := MemoryRows(db.memories, db.order);
    var chosen := Filter(rows, keep);
    var sorted := Sort(chosen, NewestFirst);
    MemoryRowsElements(db.memories, db.order);
    FilterElements(rows, keep);
    SortElements(chosen, NewestFirst);
    FilterElements(Take(sorted, limit), (m: Memory) => Intersects(scopes, m.scope));
    forall m | m in Filter(Take(sorted, limit), (m: Memory) => Intersects(scopes, m.scope))
      ensures m.id in db.memories && db.memories[m.id] == m && Active(m)
    {
      assert m in Take(sorted, limit);
      assert m in multiset(sorted);
      assert m in multiset(chosen);
      assert m in rows && keep(m);
    }
  }

  lemma {:induction false} AddUnseenElements(hits: seq<Memory>, more: seq<Memory>)
    ensures forall m :: m in AddUnseen(hits, more) ==> m in hits || m in more
    decreases |more|
  {
    if more != [] {
      AddUnseenElements(if more[0].id in Ids(hits) then hits else hits + [more[0]], more[1..]);
    }
  }

  lemma {:induction false} EntityAnchoredElements(db: Db, anchors: seq<EntityId>, scopes: Scope, hits: seq<Memory>)
    requires Keyed(db) && StoredActive(db, hits)
    ensures StoredActive(db, EntityAnchored(db, anchors, scopes, hits))
    decreases |anchors|
  {
    if anchors != [] {
      var keep := (m: Memory) => (m.id, anchors[0]) in db.links && Active(m);
      QueryElements(db, keep, ENTITY_PER_HIT_LIMIT, scopes);
      var more := MemoriesForEntity(db, anchors[0], scopes, ENTITY_PER_HIT_LIMIT);
      AddUnseenElements(hits, more);
      EntityAnchoredElements(db, anchors[1..], scopes, AddUnseen(hits, more));
    }
  }

  /** Every merged item is an eligible memory: the vector source by the index
      invariant, the other two by their queries. */
  lemma MergedItemsEligible(st: Engine, dimOf: string -> nat, req: Request)
    requires Safe(st, dimOf)
    ensures ItemsEligible(st.db, MergedItems(st.db, st.index, req), ExpandInherited(req.scope))
  {
    var scopes := ExpandInherited(req.scope);
    var found := Lookup(st.index.side, req.neighbours);
    LookupHits(st.index.side, req.neighbours);
    SortElements(found, MostSimilarFirst);
    var hits := Search(st.index, req.neighbours);
    forall h | h in hits
      ensures exists s :: s in st.index.side && st.index.side[s] == Point(h.memoryId, h.scope, h.kind)
    {
      assert h in multiset(hits);
      assert h in found;
    }
    MergeVectorEligible(st, dimOf, map[], hits, scopes);
    var fromVector := MergeVector(map[], hits, scopes, st.db.memories);
    EntityAnchoredElements(st.db, req.anchors, scopes, []);
    MergeListedEligible(st.db, fromVector, EntityAnchored(st.db, req.anchors, scopes, []), scopes, FromEntity);
    QueryElements(st.db, Active, RECENT_WINDOW, scopes);
    MergeListedEligible(st.db,
                        MergeListed(fromVector, EntityAnchored(st.db, req.anchors, scopes, []), scopes, FromEntity),
                        RecentInScope(st.db, scopes, RECENT_WINDOW), scopes, FromRecent);
  }

  // ---- From items to the ranked list ----------------------------------------

  /** x is the scored form of a merged item at or above the floor. */
  ghost predicate ScoredItem(
    x: Scored, items: map<MemoryId, WorkItem>, req: Request, scoring: Scoring, decay: Decay)
  {
    var id := x.item.memory.id;
    && id in items && items[id].memory.confidence >= req.lens.minConfidence
    && x == Score(items[id], scoring, decay, req.now)
  }

  ghost predicate DistinctMemories(ranked: seq<Scored>) {
    forall i, j :: 0 <= i < j < |ranked| ==> ranked[i].item.memory.id != ranked[j].item.memory.id
  }

  ghost predicate KeyedItems(items: map<MemoryId, WorkItem>) {
    forall id :: id in items ==> items[id].memory.id == id
  }

  lemma {:induction false} ScoreAllElements(
    items: map<MemoryId, WorkItem>, walk: seq<MemoryId>, req: Request, scoring: Scoring, decay: Decay)
    requires KeyedItems(items)
    ensures forall x :: x in ScoreAll(items, walk, req, scoring, decay) <==>
              ScoredItem(x, items, req, scoring, decay) && x.item.memory.id in walk
    ensures NoDuplicates(walk) ==> DistinctMemories(ScoreAll(items, walk, req, scoring, decay))
    decreases |walk|
  {
    if walk != [] {
      ScoreAllElements(items, walk[1..], req, scoring, decay);
      assert forall id :: id in walk <==> id == walk[0] || id in walk[1..];
      if NoDuplicates(walk) {
        assert walk[0] !in walk[1..];
      }
    }
  }

  lemma DistinctIsPermutationInvariant(a: seq<Scored>, b: seq<Scored>)
    requires multiset(a) == multiset(b) && DistinctMemories(a)
    ensures DistinctMemories(b)
  {
    NoDuplicatesMultiset(a);
    assert NoDuplicates(a);
    NoDuplicatesMultiset(b);
    forall i, j | 0 <= i < j < |b|
      ensures b[i].item.memory.id != b[j].item.memory.id
    {
      assert b[i] in multiset(a) && b[j] in multiset(a);
      assert b[i] in a && b[j] in a && b[i] != b[j];
    }
  }

  lemma RankedElements(
    items: map<MemoryId, WorkItem>, walk: seq<MemoryId>, req: Request, scoring: Scoring, decay: Decay)
    requires KeyedItems(items) && Walks(walk, items)
    ensures var ranked := Sort(ScoreAll(items, walk, req, scoring, decay), BestFirst);
            && (forall x :: x in ranked <==> ScoredItem(x, items, req, scoring, decay))
            && DistinctMemories(ranked) && SortedBy(ranked, BestFirst)
  {
    var scored := ScoreAll(items, walk, req, scoring, decay);
    ScoreAllElements(items, walk, req, scoring, decay);
    SortElements(scored, BestFirst);
    SortSorts(scored, BestFirst);
    DistinctIsPermutationInvariant(scored, Sort(scored, BestFirst));
    forall x
      ensures x in Sort(scored, BestFirst) <==> ScoredItem(x, items, req, scoring, decay)
    {
      assert x in multiset(Sort(scored, BestFirst)) <==> x in multiset(scored);
    }
  }

  // ---- From the ranked list to the package ----------------------------------

  lemma {:induction false} FilterKeepsDistinct(ranked: seq<Scored>, keep: Scored -> bool)
    requires DistinctMemories(ranked)
    ensures DistinctMemories(Filter(ranked, keep))
    ensures forall x :: x in Filter(ranked, keep) <==> x in ranked && keep(x)
  {
    FilterElements(ranked, keep);
    if ranked != [] {
      FilterKeepsDistinct(ranked[1..], keep);
      FilterElements(ranked[1..], keep);
      forall x | x in Filter(ranked[1..], keep)
        ensures x.item.memory.id != ranked[0].item.memory.id
      {
        assert x in ranked[1..];
      }
    }
  }

  lemma {:induction false} MemoriesOfElements(items: seq<Scored>)
    ensures |MemoriesOf(items)| == |items|
    ensures forall i :: 0 <= i < |items| ==> MemoriesOf(items)[i] == items[i].item.memory
  {
    if items != [] {
      MemoriesOfElements(items[1..]);
    }
  }

  /** A bucket holds ranked memories of its own kind, each once. */
  lemma KeptElements(ranked: seq<Scored>, lens: Lens, kind: MemoryKind, total: nat)
    requires DistinctMemories(ranked)
    ensures var memories := MemoriesOf(Kept(ranked, lens, kind, total));
            && (forall m :: m in memories ==> m.kind == kind && exists x :: x in ranked && x.item.memory == m)
            && NoDuplicates(Ids(memories))
  {
    var bucket := Bucket(ranked, kind);
    var kept := Kept(ranked, lens, kind, total);
    FilterKeepsDistinct(ranked, (x: Scored) => x.item.memory.kind == kind);
    MemoriesOfElements(kept);
    IdsElements(MemoriesOf(kept));
    forall m | m in MemoriesOf(kept)
      ensures m.kind == kind && exists x :: x in ranked && x.item.memory == m
    {
      var i :| 0 <= i < |kept| && kept[i].item.memory == m;
      assert kept[i] in bucket;
    }
  }

  function AllMemories(p: Package): seq<Memory> {
    p.claims + p.decisions + p.preferences + p.episodes
  }

  function InBucket(p: Package, kind: MemoryKind): seq<Memory> {
    match kind
    case Claim => p.claims
    case Decision => p.decisions
    case Preference => p.preferences
    case Episode => p.episodes
  }

  function EntryIds(entries: seq<Entry>): seq<MemoryId> {
    if entries == [] then [] else [entries[0].memoryId] + EntryIds(entries[1..])
  }

  lemma {:induction false} EntryIdsConcat(a: seq<Entry>, b: seq<Entry>)
    ensures EntryIds(a + b) == EntryIds(a) + EntryIds(b)
  {
    if a == [] {
      assert a + b == b;
    } else {
      EntryIdsConcat(a[1..], b);
      assert (a + b)[1..] == a[1..] + b;
    }
  }

  lemma {:induction false} EntriesMatchMemories(items: seq<Scored>, kind: MemoryKind)
    ensures EntryIds(EntriesOf(items, kind)) == Ids(MemoriesOf(items))
  {
    if items != [] {
      EntriesMatchMemories(items[1..], kind);
      assert EntriesOf(items, kind)[1..] == EntriesOf(items[1..], kind);
      assert MemoriesOf(items)[1..] == MemoriesOf(items[1..]);
    }
  }

  lemma {:induction false} IdsConcat(a: seq<Memory>, b: seq<Memory>)
    ensures Ids(a + b) == Ids(a) + Ids(b)
  {
    if a == [] {
      assert a + b == b;
    } else {
      IdsConcat(a[1..], b);
      assert (a + b)[0] == a[0] && (a + b)[1..] == a[1..] + b;
      assert [a[0].id] + (Ids(a[1..]) + Ids(b)) == ([a[0].id] + Ids(a[1..])) + Ids(b);
    }
  }

  /** The provenance report lists the package's memories: claims, decisions,
      preferences, episodes. */
  lemma ProvenanceMatches(db: Db, ranked: seq<Scored>, req: Request)
    ensures var (p, entries) := Assemble(db, ranked, req);
            EntryIds(entries) == Ids(p.claims) + Ids(p.decisions) + Ids(p.preferences) + Ids(p.episodes)
  {
    var c := Kept(ranked, req.lens, Claim, req.tokenBudget);
    var d := Kept(ranked, req.lens, Decision, req.tokenBudget);
    var f := Kept(ranked, req.lens, Preference, req.tokenBudget);
    var e := Kept(ranked, req.lens, Episode, req.tokenBudget);
    EntriesMatchMemories(c, Claim);
    EntriesMatchMemories(d, Decision);
    EntriesMatchMemories(f, Preference);
    EntriesMatchMemories(e, Episode);
    EntryIdsConcat(EntriesOf(c, Claim), EntriesOf(d, Decision));
    EntryIdsConcat(EntriesOf(c, Claim) + EntriesOf(d, Decision), EntriesOf(f, Preference));
    EntryIdsConcat(EntriesOf(c, Claim) + EntriesOf(d, Decision) + EntriesOf(f, Preference), EntriesOf(e, Episode));
  }

  /** Four buckets of stored memories, each without repeats and of its own kind,
      have no repeats together. */
  lemma BucketsDisjoint(db: Db, p: Package)
    requires forall kind, m :: m in InBucket(p, kind) ==>
               m.kind == kind && m.id in db.memories && db.memories[m.id] == m
    requires forall kind :: NoDuplicates(Ids(InBucket(p, kind)))
    ensures NoDuplicates(Ids(AllMemories(p)))
  {
    assert InBucket(p, Claim) == p.claims && InBucket(p, Decision) == p.decisions;
    assert InBucket(p, Preference) == p.preferences && InBucket(p, Episode) == p.episodes;
    JoinDistinct(p.claims, p.decisions, db);
    JoinDistinct(p.claims + p.decisions, p.preferences, db);
    JoinDistinct(p.claims + p.decisions + p.preferences, p.episodes, db);
  }

  predicate Stored(db: Db, m: Memory) {
    m.id in db.memories && db.memories[m.id] == m
  }

  lemma {:induction false} IdsAt(a: seq<Memory>)
    ensures |Ids(a)| == |a| && forall i :: 0 <= i < |a| ==> Ids(a)[i] == a[i].id
  {
    if a != [] {
      IdsAt(a[1..]);
    }
  }

  lemma JoinDistinct(a: seq<Memory>, b: seq<Memory>, db: Db)
    requires NoDuplicates(Ids(a)) && NoDuplicates(Ids(b))
    requires forall i :: 0 <= i < |a| ==> Stored(db, a[i])
    requires forall j :: 0 <= j < |b| ==> Stored(db, b[j])
    requires forall i, j :: 0 <= i < |a| && 0 <= j < |b| ==> a[i].kind != b[j].kind
    ensures NoDuplicates(Ids(a + b))
  {
    IdsAt(a);
    IdsAt(b);
    IdsConcat(a, b);
    JoinNoDuplicates(Ids(a), Ids(b));
  }

  lemma JoinNoDuplicates<T>(a: seq<T>, b: seq<T>)
    requires NoDuplicates(a) && NoDuplicates(b)
    requires forall i, j :: 0 <= i < |a| && 0 <= j < |b| ==> a[i] != b[j]
    ensures NoDuplicates(a + b)
  {}

  lemma BucketIsSound(
    st: Engine, dimOf: string -> nat, req: Request, scoring: Scoring, decay: Decay, walk: seq<MemoryId>,
    kind: MemoryKind)
    requires Safe(st, dimOf) && Walks(walk, MergedItems(st.db, st.index, req))
    ensures var p := ReadContext(st.db, st.index, req, scoring, decay, walk).0;
            && NoDuplicates(Ids(InBucket(p, kind)))
            && forall m :: m in InBucket(p, kind) ==>
                 m.kind == kind && Eligible(st.db, m, ExpandInherited(req.scope))
                 && m.confidence >= req.lens.minConfidence
  {
    var items := MergedItems(st.db, st.index, req);
    var ranked := Sort(ScoreAll(items, walk, req, scoring, decay), BestFirst);
    var p := ReadContext(st.db, st.index, req, scoring, decay, walk).0;
    MergedItemsEligible(st, dimOf, req);
    RankedElements(items, walk, req, scoring, decay);
    assert InBucket(p, kind) == MemoriesOf(Kept(ranked, req.lens, kind, req.tokenBudget));
    KeptElements(ranked, req.lens, kind, req.tokenBudget);
    forall m | m in InBucket(p, kind)
      ensures m.kind == kind && Eligible(st.db, m, ExpandInherited(req.scope)) && m.confidence >= req.lens.minConfidence
    {
      var x :| x in ranked && x.item.memory == m;
      assert ScoredItem(x, items, req, scoring, decay);
    }
  }

  /** In every state that satisfies the index invariant, whatever neighbours the
      graph returns and however the merged items are walked, the package holds
      only active memories of the requested or inherited scopes at or above the
      floor, each once and in the bucket of its kind, and the provenance report
      lists exactly them. */
  lemma ReadContextIsSound(
    st: Engine, dimOf: string -> nat, req: Request, scoring: Scoring, decay: Decay, walk: seq<MemoryId>)
    requires Safe(st, dimOf) && Walks(walk, MergedItems(st.db, st.index, req))
    ensures var (p, entries) := ReadContext(st.db, st.index, req, scoring, decay, walk);
            && (forall kind, m :: m in InBucket(p, kind) ==>
                  && m.kind == kind && Eligible(st.db, m, ExpandInherited(req.scope))
                  && m.confidence >= req.lens.minConfidence)
            && NoDuplicates(Ids(AllMemories(p)))
            && EntryIds(entries) == Ids(AllMemories(p))
  {
    var ranked := Sort(ScoreAll(MergedItems(st.db, st.index, req), walk, req, scoring, decay), BestFirst);
    var (p, entries) := ReadContext(st.db, st.index, req, scoring, decay, walk);
    assert (p, entries) == Assemble(st.db, ranked, req);
    forall kind
      ensures NoDuplicates(Ids(InBucket(p, kind)))
      ensures forall m :: m in InBucket(p, kind) ==>
                && m.kind == kind && Eligible(st.db, m, ExpandInherited(req.scope))
                && m.confidence >= req.lens.minConfidence
    {
      BucketIsSound(st, dimOf, req, scoring, decay, walk, kind);
    }
    BucketsDisjoint(st.db, p);
    ProvenanceMatches(st.db, ranked, req);
    IdsConcat(p.claims, p.decisions);
    IdsConcat(p.claims + p.decisions, p.preferences);
    IdsConcat(p.claims + p.decisions + p.preferences, p.episodes);
  }
}
