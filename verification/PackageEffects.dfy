/** What a context package contains, in terms of the items considered: who is in
    each bucket, in what order, and who is left out. */
module PackageEffects {
  import opened Domain
  import opened Sorting
  import opened Tables
  import opened VectorIndexes
  import opened IndexInvariant
  import opened ReadPath
  import opened ReadPathSafety
  import opened ReadPathLaws
  import MergedSources

  // ---- What ranks, weighs and costs -----------------------------------------

  /** Four signals, each times its weight: similarity, half a point for a named
      entity, recency, confidence. */
  function Fused(w: WorkItem, s: Scoring, decay: Decay, now: int): real {
    s.vectorWeight * (if w.similarity.Some? then w.similarity.value else 0.0)
    + s.entityWeight * (if w.entityMatch then 0.5 else 0.0)
    + s.recencyWeight * decay(s.halfLife, now - w.memory.updatedAt)
    + s.confidenceWeight * w.memory.confidence
  }

  /** A higher score or, at one score, no earlier update. */
  predicate Ahead(a: WorkItem, b: WorkItem, s: Scoring, decay: Decay, now: int) {
    var x, y := Fused(a, s, decay, now), Fused(b, s, decay, now);
    x > y || (x == y && a.memory.updatedAt >= b.memory.updatedAt)
  }

  /** The kind's share of the total, to the nearest token, halves up. */
  predicate Allots(lens: Lens, kind: MemoryKind, total: nat, n: nat) {
    var sum := lens.claimWeight + lens.decisionWeight + lens.preferenceWeight + lens.episodeWeight;
    var weight := match kind
                  case Claim => lens.claimWeight
                  case Decision => lens.decisionWeight
                  case Preference => lens.preferenceWeight
                  case Episode => lens.episodeWeight;
    if sum <= 0.0 then n == 0
    else
      var share := total as real * (weight / sum);
      if share < 0.0 then n == 0 else n as real - 0.5 <= share < n as real + 0.5
  }

  /** Four characters to the token, the last one perhaps not full. */
  predicate Costs(text: string, tokens: nat) {
    |text| <= 4 * tokens < |text| + 4
  }

  /** A token for every four characters or part of them, added up. */
  lemma {:induction false} TokensAddUp(a: seq<Memory>, b: seq<Memory>)
    ensures SumTokens(a + b) == SumTokens(a) + SumTokens(b)
    ensures |a| == 1 ==> Costs(a[0].text, SumTokens(a))
    ensures a == [] ==> SumTokens(a) == 0
    decreases |a|
  {
    if a == [] {
      assert a + b == b;
    } else {
      TokensAddUp(a[1..], b);
      assert (a + b)[0] == a[0] && (a + b)[1..] == a[1..] + b;
    }
  }

  /** The estimate of a package counts every memory in it. */
  lemma EstimateEffect(db: Db, index: Index, req: Request, s: Scoring, decay: Decay, walk: seq<MemoryId>)
    ensures var p := ReadContext(db, index, req, s, decay, walk).0; p.tokenEstimate == SumTokens(AllMemories(p))
  {
    var p := ReadContext(db, index, req, s, decay, walk).0;
    TokensAddUp(p.claims, p.decisions);
    TokensAddUp(p.claims + p.decisions, p.preferences);
    TokensAddUp(p.claims + p.decisions + p.preferences, p.episodes);
  }

  lemma AllotsBudget(lens: Lens, kind: MemoryKind, total: nat, n: nat)
    requires Allots(lens, kind, total, n)
    ensures n == BudgetFor(lens, kind, total)
  {
    if WeightSum(lens) > 0.0 {
      var share := total as real * (WeightFor(lens, kind) / WeightSum(lens));
      if share >= 0.0 {
        NearestInteger(share, n);
      }
    }
  }

  lemma NearestInteger(x: real, n: nat)
    requires n as real - 0.5 <= x < n as real + 0.5
    ensures (x + 0.5).Floor == n
  {}

  // ---- One bucket -----------------------------------------------------------

  /** An item of the kind that meets the floor of the lens. */
  predicate Candidates(items: map<MemoryId, WorkItem>, req: Request, kind: MemoryKind, id: MemoryId) {
    id in items && items[id].memory.kind == kind && items[id].memory.confidence >= req.lens.minConfidence
  }

  type Order = (WorkItem, WorkItem) -> bool

  function AheadBy(s: Scoring, decay: Decay, now: int): Order {
    (a: WorkItem, b: WorkItem) => Ahead(a, b, s, decay, now)
  }

  /** The bucket holds candidates, best first, each ahead of every candidate left
      out. */
  ghost predicate BestCandidates(
    items: map<MemoryId, WorkItem>, req: Request, kind: MemoryKind, ahead: Order, bucket: seq<Memory>)
  {
    && (forall i :: 0 <= i < |bucket| ==>
          Candidates(items, req, kind, bucket[i].id) && items[bucket[i].id].memory == bucket[i])
    && (forall i, j :: 0 <= i < j < |bucket| ==>
          bucket[i].id != bucket[j].id && ahead(items[bucket[i].id], items[bucket[j].id]))
    && (forall i, id :: 0 <= i < |bucket| && Candidates(items, req, kind, id) && LeftOut(bucket, id) ==>
          ahead(items[bucket[i].id], items[id]))
  }

  predicate LeftOut(bucket: seq<Memory>, id: MemoryId) {
    forall i :: 0 <= i < |bucket| ==> bucket[i].id != id
  }

  /** The bucket respects the cap and, unless it is a single memory, the budget. */
  ghost predicate WithinLimits(bucket: seq<Memory>, max: nat, budget: nat) {
    |bucket| <= max && (|bucket| <= 1 || SumTokens(bucket) <= budget)
  }

  /** Nothing is left out for which there was room: with the best candidate left
      out, the bucket would break a limit. */
  ghost predicate Full(
    items: map<MemoryId, WorkItem>, req: Request, kind: MemoryKind, ahead: Order, bucket: seq<Memory>, budget: nat)
  {
    (exists id :: Candidates(items, req, kind, id) && LeftOut(bucket, id)) ==>
      exists id :: && Candidates(items, req, kind, id) && LeftOut(bucket, id)
                   && !WithinLimits(bucket + [items[id].memory], req.lens.maxPerKind, budget)
                   && forall other :: Candidates(items, req, kind, other) && LeftOut(bucket, other) && other != id ==>
                        ahead(items[id], items[other])
  }

  /** Every candidate once, best first. */
  ghost predicate Listing(
    items: map<MemoryId, WorkItem>, req: Request, kind: MemoryKind, ahead: Order, all: seq<Memory>)
  {
    && (forall i :: 0 <= i < |all| ==> Candidates(items, req, kind, all[i].id) && items[all[i].id].memory == all[i])
    && (forall i, j :: 0 <= i < j < |all| ==>
          all[i].id != all[j].id && ahead(items[all[i].id], items[all[j].id]))
    && (forall id :: Candidates(items, req, kind, id) ==> !LeftOut(all, id))
  }

  lemma RankedBucket(
    items: map<MemoryId, WorkItem>, walk: seq<MemoryId>, req: Request, s: Scoring, decay: Decay, kind: MemoryKind)
    requires KeyedItems(items) && Walks(walk, items)
    ensures Listing(items, req, kind, AheadBy(s, decay, req.now),
                    MemoriesOf(Bucket(Sort(ScoreAll(items, walk, req, s, decay), BestFirst), kind)))
  {
    var ranked := Sort(ScoreAll(items, walk, req, s, decay), BestFirst);
    var bucket := Bucket(ranked, kind);
    var all := MemoriesOf(bucket);
    RankedElements(items, walk, req, s, decay);
    FilterKeepsDistinct(ranked, (x: Scored) => x.item.memory.kind == kind);
    FilterKeepsSorted(ranked, (x: Scored) => x.item.memory.kind == kind, BestFirst);
    MemoriesOfElements(bucket);
    forall i | 0 <= i < |bucket|
      ensures all[i] == bucket[i].item.memory && ScoredItem(bucket[i], items, req, s, decay)
      ensures Candidates(items, req, kind, all[i].id)
    {
      assert bucket[i] in bucket;
    }
    forall i, j | 0 <= i < j < |bucket|
      ensures AheadBy(s, decay, req.now)(items[all[i].id], items[all[j].id])
    {
      assert BestFirst(bucket[i], bucket[j]);
      BestIsAhead(items[all[i].id], items[all[j].id], s, decay, req.now);
    }
    forall id | Candidates(items, req, kind, id)
      ensures !LeftOut(all, id)
    {
      assert ScoredItem(Score(items[id], s, decay, req.now), items, req, s, decay);
      var k :| 0 <= k < |bucket| && bucket[k] == Score(items[id], s, decay, req.now);
      assert all[k].id == id;
    }
  }

  lemma BestIsAhead(a: WorkItem, b: WorkItem, s: Scoring, decay: Decay, now: int)
    ensures BestFirst(Score(a, s, decay, now), Score(b, s, decay, now)) <==> AheadBy(s, decay, now)(a, b)
  {}

  /** The first n of a listing are its best, and the next comes before the rest. */
  lemma PrefixIsBest(
    items: map<MemoryId, WorkItem>, req: Request, kind: MemoryKind, ahead: Order, all: seq<Memory>, n: nat)
    requires n <= |all| && Listing(items, req, kind, ahead, all)
    ensures BestCandidates(items, req, kind, ahead, all[..n])
    ensures forall id :: Candidates(items, req, kind, id) && LeftOut(all[..n], id) ==>
              exists k :: n <= k < |all| && all[k].id == id
  {
    forall id | Candidates(items, req, kind, id) && LeftOut(all[..n], id)
      ensures exists k :: n <= k < |all| && all[k].id == id
      ensures forall i :: 0 <= i < n ==> ahead(items[all[i].id], items[id])
    {
      assert !LeftOut(all, id);
      assert forall k :: 0 <= k < n ==> all[..n][k] == all[k];
      var k :| 0 <= k < |all| && all[k].id == id;
    }
  }

  /** Each bucket of a package: the best candidates of its kind, as many as fit
      the cap and its share of the budget, the first one always let in. */
  lemma PackageEffect(
    db: Db, index: Index, req: Request, s: Scoring, decay: Decay, walk: seq<MemoryId>, kind: MemoryKind, budget: nat)
    requires Keyed(db) && Walks(walk, MergedItems(db, index, req)) && Allots(req.lens, kind, req.tokenBudget, budget)
    ensures var items := MergedItems(db, index, req);
            var bucket := InBucket(ReadContext(db, index, req, s, decay, walk).0, kind);
            && BestCandidates(items, req, kind, AheadBy(s, decay, req.now), bucket)
            && WithinLimits(bucket, req.lens.maxPerKind, budget)
            && Full(items, req, kind, AheadBy(s, decay, req.now), bucket, budget)
  {
    var items := MergedItems(db, index, req);
    var ranked := Sort(ScoreAll(items, walk, req, s, decay), BestFirst);
    var all, kept := MemoriesOf(Bucket(ranked, kind)), Kept(ranked, req.lens, kind, req.tokenBudget);
    ItemsAreKeyed(db, index, req);
    AllotsBudget(req.lens, kind, req.tokenBudget, budget);
    RankedBucket(items, walk, req, s, decay, kind);
    KeptAreFirst(ranked, req.lens, kind, req.tokenBudget);
    assert InBucket(ReadContext(db, index, req, s, decay, walk).0, kind) == MemoriesOf(kept);
    FirstThatFit(items, req, kind, AheadBy(s, decay, req.now), all, |kept|, budget);
  }

  /** The kept memories are the longest run of the listing within the limits. */
  lemma KeptAreFirst(ranked: seq<Scored>, lens: Lens, kind: MemoryKind, total: nat)
    ensures var all, kept := MemoriesOf(Bucket(ranked, kind)), Kept(ranked, lens, kind, total);
            var budget := BudgetFor(lens, kind, total);
            && |kept| <= |all| && MemoriesOf(kept) == all[..|kept|]
            && WithinLimits(all[..|kept|], lens.maxPerKind, budget)
            && (|kept| < |all| ==> !WithinLimits(all[..|kept| + 1], lens.maxPerKind, budget))
  {
    var bucket, kept := Bucket(ranked, kind), Kept(ranked, lens, kind, total);
    KeptIsLongestPrefix(ranked, lens, kind, total);
    MemoriesOfElements(bucket);
    PrefixCosts(bucket, |kept|);
    assert kept == bucket[..|kept|];
    if |kept| < |bucket| {
      PrefixCosts(bucket, |kept| + 1);
      assert !Fits(bucket, |kept| + 1, lens.maxPerKind, BudgetFor(lens, kind, total));
    }
  }

  lemma PrefixCosts(bucket: seq<Scored>, n: nat)
    requires n <= |bucket|
    ensures |MemoriesOf(bucket)| == |bucket| && MemoriesOf(bucket)[..n] == MemoriesOf(bucket[..n])
    ensures SumTokens(MemoriesOf(bucket)[..n]) == TokensIn(bucket[..n])
  {
    MemoriesOfElements(bucket);
    MemoriesOfElements(bucket[..n]);
    SumTokensOfItems(bucket[..n]);
  }

  lemma FirstThatFit(
    items: map<MemoryId, WorkItem>, req: Request, kind: MemoryKind, ahead: Order, all: seq<Memory>, n: nat,
    budget: nat)
    requires n <= |all| && Listing(items, req, kind, ahead, all)
    requires n < |all| ==> !WithinLimits(all[..n + 1], req.lens.maxPerKind, budget)
    ensures BestCandidates(items, req, kind, ahead, all[..n])
    ensures Full(items, req, kind, ahead, all[..n], budget)
  {
    PrefixIsBest(items, req, kind, ahead, all, n);
    if n < |all| {
      var next := all[n];
      assert all[..n] + [next] == all[..n + 1];
      assert Candidates(items, req, kind, next.id) && LeftOut(all[..n], next.id);
      forall other | Candidates(items, req, kind, other) && LeftOut(all[..n], other) && other != next.id
        ensures ahead(items[next.id], items[other])
      {
        var k :| n <= k < |all| && all[k].id == other;
      }
    }
  }

  lemma ItemsAreKeyed(db: Db, index: Index, req: Request)
    requires Keyed(db)
    ensures KeyedItems(MergedItems(db, index, req))
  {
    forall id | id in MergedItems(db, index, req)
      ensures MergedItems(db, index, req)[id].memory.id == id
    {
      MergedSources.MergedItemsExactly(db, index, req, id);
    }
  }

  // ---- The report -----------------------------------------------------------

  /** What the report says of one item. */
  predicate Reports(e: Entry, w: WorkItem, s: Scoring, decay: Decay, now: int) {
    && e.memoryId == w.memory.id && e.score == Fused(w, s, decay, now)
    && e.similarity == w.similarity && e.entityMatch == w.entityMatch
    && e.recency == decay(s.halfLife, now - w.memory.updatedAt)
    && e.confidence == w.memory.confidence && e.sources == w.sources
    && e.sourceEvents == w.memory.sources && e.keptIn == w.memory.kind
  }

  lemma {:induction false} EntriesReport(kept: seq<Scored>, kind: MemoryKind)
    ensures |EntriesOf(kept, kind)| == |kept|
    ensures forall i :: 0 <= i < |kept| ==> EntriesOf(kept, kind)[i] == EntryOf(kept[i], kind)
  {
    if kept != [] {
      EntriesReport(kept[1..], kind);
    }
  }

  lemma KeptReport(
    items: map<MemoryId, WorkItem>, walk: seq<MemoryId>, req: Request, s: Scoring, decay: Decay, kind: MemoryKind)
    requires KeyedItems(items) && Walks(walk, items)
    ensures var kept := Kept(Sort(ScoreAll(items, walk, req, s, decay), BestFirst), req.lens, kind, req.tokenBudget);
            forall e :: e in EntriesOf(kept, kind) ==>
              e.memoryId in items && Reports(e, items[e.memoryId], s, decay, req.now)
  {
    var ranked := Sort(ScoreAll(items, walk, req, s, decay), BestFirst);
    var kept := Kept(ranked, req.lens, kind, req.tokenBudget);
    RankedElements(items, walk, req, s, decay);
    FilterElements(ranked, (x: Scored) => x.item.memory.kind == kind);
    EntriesReport(kept, kind);
    forall e | e in EntriesOf(kept, kind)
      ensures e.memoryId in items && Reports(e, items[e.memoryId], s, decay, req.now)
    {
      var i :| 0 <= i < |kept| && e == EntryOf(kept[i], kind);
      assert kept[i] in Bucket(ranked, kind);
      ItemReports(items, kept[i], req, s, decay, kind);
    }
  }

  lemma ItemReports(
    items: map<MemoryId, WorkItem>, x: Scored, req: Request, s: Scoring, decay: Decay, kind: MemoryKind)
    requires ScoredItem(x, items, req, s, decay) && KeyedItems(items) && x.item.memory.kind == kind
    ensures var e := EntryOf(x, kind); e.memoryId in items && Reports(e, items[e.memoryId], s, decay, req.now)
  {}

  /** Every entry of the report says of its memory what was considered: the fused
      score, the four signals, the sources. */
  lemma ReportEffect(db: Db, index: Index, req: Request, s: Scoring, decay: Decay, walk: seq<MemoryId>)
    requires Keyed(db) && Walks(walk, MergedItems(db, index, req))
    ensures var items := MergedItems(db, index, req);
            forall e :: e in ReadContext(db, index, req, s, decay, walk).1 ==>
              e.memoryId in items && Reports(e, items[e.memoryId], s, decay, req.now)
  {
    var items := MergedItems(db, index, req);
    ItemsAreKeyed(db, index, req);
    KeptReport(items, walk, req, s, decay, Claim);
    KeptReport(items, walk, req, s, decay, Decision);
    KeptReport(items, walk, req, s, decay, Preference);
    KeptReport(items, walk, req, s, decay, Episode);
  }
}
