/** Which contests a package leaves out. A package lists an unresolved conflict
    when its scope meets the request, and that scope never widens as members are
    added, so with several scopes per memory a package can show two contradicting
    memories and no conflict between them. */
module HiddenContests {
  import opened Domain
  import opened Sorting
  import opened Tables
  import opened VectorIndexes
  import opened Engines
  import opened IndexInvariant
  import opened Conflicts
  import opened MultiScope
  import opened Extraction
  import opened ReadPath
  import opened ReadPathSafety
  import opened ReadPathLaws

  // ---- When a contest is listed ---------------------------------------------

  /** The unresolved conflict at i names both. */
  predicate Names(conflicts: seq<Conflict>, i: int, a: MemoryId, b: MemoryId) {
    && 0 <= i < |conflicts| && conflicts[i].resolution == Unresolved
    && a in conflicts[i].members && b in conflicts[i].members
  }

  /** For every state and request: the package lists a conflict naming both
      exactly when some unresolved one that names both has a scope the expanded
      request meets. */
  lemma SurfacedIff(
    db: Db, index: Index, req: Request, scoring: Scoring, decay: Decay, walk: seq<MemoryId>, a: MemoryId, b: MemoryId)
    ensures Surfaced(ReadContext(db, index, req, scoring, decay, walk).0.conflicts, a, b) <==>
            exists i :: Names(db.conflicts, i, a, b) && Intersects(ExpandInherited(req.scope), db.conflicts[i].scope)
  {
    var scopes := ExpandInherited(req.scope);
    var open := OpenConflicts(db.conflicts, scopes);
    FilterElements(db.conflicts, (c: Conflict) => c.resolution == Unresolved && Intersects(scopes, c.scope));
    assert ReadContext(db, index, req, scoring, decay, walk).0.conflicts == open;
    if i :| Names(db.conflicts, i, a, b) && Intersects(scopes, db.conflicts[i].scope) {
      assert db.conflicts[i] in open;
    }
    if Surfaced(open, a, b) {
      var c :| c in open && c.resolution == Unresolved && a in c.members && b in c.members;
      var i :| 0 <= i < |db.conflicts| && db.conflicts[i] == c;
      assert Names(db.conflicts, i, a, b);
    }
  }

  /** Some unresolved conflict names both, and every one that does has a scope
      the request misses. */
  ghost predicate HiddenFrom(db: Db, scopes: Scope, a: MemoryId, b: MemoryId) {
    && (exists i :: Names(db.conflicts, i, a, b))
    && (forall i :: Names(db.conflicts, i, a, b) ==> !Intersects(scopes, db.conflicts[i].scope))
  }

  /** Where contradictions are covered, those a package shows without a conflict
      are exactly the hidden ones. */
  lemma UnsurfacedIsHidden(
    db: Db, index: Index, req: Request, scoring: Scoring, decay: Decay, walk: seq<MemoryId>, a: MemoryId, b: MemoryId)
    requires Covered(db) && ActiveIn(db, a) && ActiveIn(db, b) && Contradict(db.memories[a], db.memories[b])
    ensures !Surfaced(ReadContext(db, index, req, scoring, decay, walk).0.conflicts, a, b) <==>
            HiddenFrom(db, ExpandInherited(req.scope), a, b)
  {
    SurfacedIff(db, index, req, scoring, decay, walk, a, b);
    assert Contested(db.conflicts, a, b);
    var i :| 0 <= i < |db.conflicts| && db.conflicts[i].resolution == Unresolved
             && a in db.conflicts[i].members && b in db.conflicts[i].members;
    assert Names(db.conflicts, i, a, b);
  }

  // ---- A roomy package shows everything eligible ----------------------------

  /** Room for every stored memory in every bucket, each at most so many tokens. */
  ghost predicate Roomy(db: Db, req: Request, widest: nat) {
    && |db.memories| <= RECENT_WINDOW && |db.memories| <= req.lens.maxPerKind
    && (forall id :: id in db.memories ==> TokensOf(db.memories[id].text) <= widest)
    && (forall kind :: |db.memories| * widest <= BudgetFor(req.lens, kind, req.tokenBudget))
  }

  lemma {:induction false} DistinctWithin<T>(s: seq<T>, universe: set<T>)
    requires NoDuplicates(s) && forall x :: x in s ==> x in universe
    ensures |s| <= |universe|
  {
    if s != [] {
      assert forall i :: 0 <= i < |s[1..]| ==> s[1..][i] == s[i + 1];
      assert s[0] !in s[1..];
      DistinctWithin(s[1..], universe - {s[0]});
    }
  }

  lemma {:induction false} RowsNoMoreThanOrder(memories: map<MemoryId, Memory>, order: seq<MemoryId>)
    ensures |MemoryRows(memories, order)| <= |order|
  {
    if order != [] {
      RowsNoMoreThanOrder(memories, order[1..]);
    }
  }

  /** When the recency window covers the table, the recent source lists every
      eligible memory. */
  lemma RecentListsEligible(db: Db, scopes: Scope, m: Memory)
    requires Keyed(db) && |db.memories| <= RECENT_WINDOW && Eligible(db, m, scopes)
    ensures m in RecentInScope(db, scopes, RECENT_WINDOW)
  {
    var rows := MemoryRows(db.memories, db.order);
    DistinctWithin(db.order, db.memories.Keys);
    RowsNoMoreThanOrder(db.memories, db.order);
    FilterElements(rows, Active);
    SortElements(Filter(rows, Active), NewestFirst);
    ListActiveElements(db);
    assert Take(ListActive(db), RECENT_WINDOW) == ListActive(db);
    FilterElements(ListActive(db), (x: Memory) => Intersects(scopes, x.scope));
  }

  lemma {:induction false} MergeListedKeeps(
    items: map<MemoryId, WorkItem>, listed: seq<Memory>, scopes: Scope, source: Source)
    ensures forall id :: id in items ==> id in MergeListed(items, listed, scopes, source)
    ensures forall m :: m in listed && Intersects(scopes, m.scope) ==>
              m.id in MergeListed(items, listed, scopes, source)
    decreases |listed|
  {
    if listed != [] {
      var m := listed[0];
      if !Intersects(scopes, m.scope) {
        MergeListedKeeps(items, listed[1..], scopes, source);
      } else {
        var w := ItemFor(items, m);
        MergeListedKeeps(
          items[m.id := w.(sources := w.sources + {source}, entityMatch := w.entityMatch || source == FromEntity)],
          listed[1..], scopes, source);
      }
      assert forall x :: x in listed <==> x == m || x in listed[1..];
    }
  }

  lemma {:induction false} TokensWithin(items: seq<Scored>, widest: nat)
    requires forall x :: x in items ==> TokensOf(x.item.memory.text) <= widest
    ensures TokensIn(items) <= |items| * widest
  {
    if items != [] {
      assert items[0] in items;
      assert forall x :: x in items[1..] ==> x in items;
      TokensWithin(items[1..], widest);
      OneMoreWidest(|items[1..]|, widest);
    }
  }

  lemma OneMoreWidest(n: nat, widest: nat)
    ensures (n + 1) * widest == n * widest + widest
  {}

  lemma {:induction false} IdsOfDistinct(items: seq<Scored>)
    requires DistinctMemories(items)
    ensures |IdsIn(items)| == |items| && NoDuplicates(IdsIn(items))
    ensures forall i :: 0 <= i < |items| ==> IdsIn(items)[i] == items[i].item.memory.id
  {
    if items != [] {
      assert forall i :: 0 <= i < |items[1..]| ==> items[1..][i] == items[i + 1];
      IdsOfDistinct(items[1..]);
    }
  }

  function IdsIn(items: seq<Scored>): seq<MemoryId> {
    if items == [] then [] else [items[0].item.memory.id] + IdsIn(items[1..])
  }

  lemma TimesWidest(n: nat, m: nat, widest: nat)
    requires n <= m
    ensures n * widest <= m * widest
  {}

  /** A bucket holds no more stored memories than there are. */
  lemma BucketFitsTable(db: Db, ranked: seq<Scored>, widest: nat, kind: MemoryKind)
    requires DistinctMemories(ranked)
    requires forall id :: id in db.memories ==> TokensOf(db.memories[id].text) <= widest
    requires forall x :: x in ranked ==>
               x.item.memory.id in db.memories && db.memories[x.item.memory.id] == x.item.memory
    ensures |Bucket(ranked, kind)| <= |db.memories|
    ensures TokensIn(Bucket(ranked, kind)) <= |db.memories| * widest
  {
    var items := Bucket(ranked, kind);
    var ofKind := (x: Scored) => x.item.memory.kind == kind;
    FilterKeepsDistinct(ranked, ofKind);
    FilterElements(ranked, ofKind);
    IdsOfDistinct(items);
    DistinctWithin(IdsIn(items), db.memories.Keys);
    TokensWithin(items, widest);
    TimesWidest(|items|, |db.memories|, widest);
  }

  /** A bucket of stored memories for which there is room is kept whole. */
  lemma BucketKeptWhole(db: Db, ranked: seq<Scored>, req: Request, widest: nat, kind: MemoryKind)
    requires Roomy(db, req, widest) && DistinctMemories(ranked)
    requires forall x :: x in ranked ==>
               x.item.memory.id in db.memories && db.memories[x.item.memory.id] == x.item.memory
    ensures Kept(ranked, req.lens, kind, req.tokenBudget) == Bucket(ranked, kind)
  {
    var items := Bucket(ranked, kind);
    BucketFitsTable(db, ranked, widest, kind);
    KeptIsLongestPrefix(ranked, req.lens, kind, req.tokenBudget);
    assert items[..|items|] == items;
    assert Fits(items, |items|, req.lens.maxPerKind, BudgetFor(req.lens, kind, req.tokenBudget));
  }

  /** In a table no larger than the recency window a roomy request shows every
      eligible memory at or above its floor, whatever else it finds. */
  lemma RoomyShowsEligible(
    st: Engine, dimOf: string -> nat, req: Request, scoring: Scoring, decay: Decay, walk: seq<MemoryId>, widest: nat,
    m: Memory)
    requires Safe(st, dimOf) && Walks(walk, MergedItems(st.db, st.index, req)) && Roomy(st.db, req, widest)
    requires Eligible(st.db, m, ExpandInherited(req.scope)) && m.confidence >= req.lens.minConfidence
    ensures m in AllMemories(ReadContext(st.db, st.index, req, scoring, decay, walk).0)
  {
    var ranked := Sort(ScoreAll(MergedItems(st.db, st.index, req), walk, req, scoring, decay), BestFirst);
    var p := ReadContext(st.db, st.index, req, scoring, decay, walk).0;
    var x := RankedHolds(st, dimOf, req, scoring, decay, walk, m);
    BucketKeptWhole(st.db, ranked, req, widest, m.kind);
    BucketHolds(ranked, x);
    assert InBucket(p, m.kind) == MemoriesOf(Bucket(ranked, m.kind));
  }

  /** The ranking holds every eligible memory, and only stored ones. */
  lemma RankedHolds(
    st: Engine, dimOf: string -> nat, req: Request, scoring: Scoring, decay: Decay, walk: seq<MemoryId>, m: Memory)
    returns (x: Scored)
    requires Safe(st, dimOf) && Walks(walk, MergedItems(st.db, st.index, req)) && |st.db.memories| <= RECENT_WINDOW
    requires Eligible(st.db, m, ExpandInherited(req.scope)) && m.confidence >= req.lens.minConfidence
    ensures var ranked := Sort(ScoreAll(MergedItems(st.db, st.index, req), walk, req, scoring, decay), BestFirst);
            && x in ranked && x.item.memory == m && DistinctMemories(ranked)
            && forall y :: y in ranked ==>
                 y.item.memory.id in st.db.memories && st.db.memories[y.item.memory.id] == y.item.memory
  {
    var items := MergedItems(st.db, st.index, req);
    var ranked := Sort(ScoreAll(items, walk, req, scoring, decay), BestFirst);
    MergedItemsEligible(st, dimOf, req);
    RecentListsEligible(st.db, ExpandInherited(req.scope), m);
    RecentIsMerged(st.db, st.index, req, m);
    assert items[m.id].memory == m;
    RankedElements(items, walk, req, scoring, decay);
    x := Score(items[m.id], scoring, decay, req.now);
    assert ScoredItem(x, items, req, scoring, decay);
    forall y | y in ranked
      ensures y.item.memory.id in st.db.memories && st.db.memories[y.item.memory.id] == y.item.memory
    {
      assert ScoredItem(y, items, req, scoring, decay);
    }
  }

  lemma BucketHolds(ranked: seq<Scored>, x: Scored)
    requires x in ranked
    ensures x.item.memory in MemoriesOf(Bucket(ranked, x.item.memory.kind))
  {
    var kind := x.item.memory.kind;
    var bucket := Bucket(ranked, kind);
    FilterElements(ranked, (y: Scored) => y.item.memory.kind == kind);
    MemoriesOfElements(bucket);
    var i :| 0 <= i < |bucket| && bucket[i] == x;
    assert MemoriesOf(bucket)[i] == x.item.memory;
  }

  lemma RecentIsMerged(db: Db, index: Index, req: Request, m: Memory)
    requires m in RecentInScope(db, ExpandInherited(req.scope), RECENT_WINDOW)
    requires Intersects(ExpandInherited(req.scope), m.scope)
    ensures m.id in MergedItems(db, index, req)
  {
    var scopes := ExpandInherited(req.scope);
    var fromVector := MergeVector(map[], Search(index, req.neighbours), scopes, db.memories);
    var fromEntity := MergeListed(fromVector, EntityAnchored(db, req.anchors, scopes, []), scopes, FromEntity);
    MergeListedKeeps(fromEntity, RecentInScope(db, scopes, RECENT_WINDOW), scopes, FromRecent);
  }

  /** Every contest hidden from a scope is shown uncontested there: a roomy
      request for the scope shows both memories and no conflict naming both. */
  lemma HiddenContestIsShown(
    st: Engine, dimOf: string -> nat, req: Request, scoring: Scoring, decay: Decay, walk: seq<MemoryId>, widest: nat,
    a: MemoryId, b: MemoryId)
    requires Safe(st, dimOf) && Walks(walk, MergedItems(st.db, st.index, req)) && Roomy(st.db, req, widest)
    requires Covered(st.db) && ActiveIn(st.db, a) && ActiveIn(st.db, b)
    requires var ma, mb := st.db.memories[a], st.db.memories[b];
             && Contradict(ma, mb) && Eligible(st.db, ma, ExpandInherited(req.scope))
             && Eligible(st.db, mb, ExpandInherited(req.scope))
             && ma.confidence >= req.lens.minConfidence && mb.confidence >= req.lens.minConfidence
    ensures var p := ReadContext(st.db, st.index, req, scoring, decay, walk).0;
            && st.db.memories[a] in AllMemories(p) && st.db.memories[b] in AllMemories(p)
            && (Surfaced(p.conflicts, a, b) <==> !HiddenFrom(st.db, ExpandInherited(req.scope), a, b))
  {
    RoomyShowsEligible(st, dimOf, req, scoring, decay, walk, widest, st.db.memories[a]);
    RoomyShowsEligible(st, dimOf, req, scoring, decay, walk, widest, st.db.memories[b]);
    UnsurfacedIsHidden(st.db, st.index, req, scoring, decay, walk, a, b);
  }

  // ---- A reachable hidden contest -------------------------------------------

  const EVEN := Lens(0.0, 1.0, 1.0, 1.0, 1.0, 10)

  /** A request for scope b, whatever the graph returns and the query names. */
  function Ask(neighbours: seq<Neighbour>, anchors: seq<EntityId>): Request {
    Request(["b"], EVEN, 400, neighbours, anchors, 0)
  }

  lemma RoomyAsk(db: Db, req: Request)
    requires HeardU(db) && req == Ask(req.neighbours, req.anchors)
    ensures Roomy(db, req, 6)
  {
    assert db.memories.Keys == {0, 1, 2, 3};
    assert |db.memories| == |db.memories.Keys| == 4;
    forall id | id in db.memories
      ensures TokensOf(db.memories[id].text) <= 6
    {
      assert |db.memories[id].text| <= 23;
    }
    forall kind
      ensures BudgetFor(EVEN, kind, 400) == 100
    {
      assert WeightFor(EVEN, kind) == 1.0 && WeightSum(EVEN) == 4.0;
    }
  }

  lemma ScopesOfAsk(db: Db)
    requires HeardU(db)
    ensures var scopes := ExpandInherited(["b"]);
            Eligible(db, db.memories[2], scopes) && Eligible(db, db.memories[3], scopes)
            && HiddenFrom(db, scopes, 2, 3)
  {
    var scopes := ExpandInherited(["b"]);
    Meets();
    assert "b" in scopes && "b" in ["a", "b"] && "b" in ["b"];
    assert "a" !in scopes && !Intersects(scopes, ["a"]);
    assert Names(db.conflicts, 0, 2, 3);
    forall i | Names(db.conflicts, i, 2, 3)
      ensures !Intersects(scopes, db.conflicts[i].scope)
    {
      assert i == 0;
    }
  }

  lemma TalkIsSafe(embedder: Embedder, dimOf: string -> nat)
    requires Faithful(embedder, dimOf)
    ensures Safe(Run(Boot(embedder), TALK), dimOf)
  {
    assert Boot(embedder).index.side == Mirror(Boot(embedder).db.rows, embedder.model);
    RunKeepsSafe(Boot(embedder), TALK, dimOf);
  }

  /** Four events of one claim each and one drain after boot, however the merged
      items are walked, a request for scope b is answered with two contradicting
      memories, and no conflict in the package names both. */
  lemma ContestCanBeHidden(
    embedder: Embedder, dimOf: string -> nat, req: Request, scoring: Scoring, decay: Decay, walk: seq<MemoryId>)
    requires Works(Boot(embedder)) && Faithful(embedder, dimOf) && req == Ask(req.neighbours, req.anchors)
    requires var st := Run(Boot(embedder), TALK); Walks(walk, MergedItems(st.db, st.index, req))
    ensures Spoken(Talk)
    ensures var st := Run(Boot(embedder), TALK);
            var p := ReadContext(st.db, st.index, req, scoring, decay, walk).0;
            && Row(Z) in AllMemories(p) && Row(U) in AllMemories(p) && Contradict(Row(Z), Row(U))
            && !Surfaced(p.conflicts, 2, 3)
  {
    TalkIsSafe(embedder, dimOf);
    TalkIsSpoken();
    TalkHeard(embedder);
    HiddenAfterTalk(Run(Boot(embedder), TALK), dimOf, req, scoring, decay, walk);
  }

  lemma HiddenAfterTalk(
    st: Engine, dimOf: string -> nat, req: Request, scoring: Scoring, decay: Decay, walk: seq<MemoryId>)
    requires req == Ask(req.neighbours, req.anchors)
    requires HeardU(st.db) && Safe(st, dimOf) && Walks(walk, MergedItems(st.db, st.index, req))
    ensures var p := ReadContext(st.db, st.index, req, scoring, decay, walk).0;
            && Row(Z) in AllMemories(p) && Row(U) in AllMemories(p) && Contradict(Row(Z), Row(U))
            && !Surfaced(p.conflicts, 2, 3)
  {
    Meets();
    RoomyAsk(st.db, req);
    ScopesOfAsk(st.db);
    RoomyShowsEligible(st, dimOf, req, scoring, decay, walk, 6, st.db.memories[2]);
    RoomyShowsEligible(st, dimOf, req, scoring, decay, walk, 6, st.db.memories[3]);
    SurfacedIff(st.db, st.index, req, scoring, decay, walk, 2, 3);
  }
}
