/** The fitness of a corpus lies between zero and one when no case has two seeds
    with one text or one corpus id: search then returns no id twice, and nDCG
    cannot exceed one. */
module FitnessRange {
  import opened Domain
  import opened Sorting
  import opened VectorIndexes
  import opened Engines
  import opened IndexInvariant
  import opened MemorySearch
  import opened ReadPath
  import opened ReadPathSafety
  import opened Metrics
  import opened TuningObjective

  // ---- What seeding stores --------------------------------------------------

  predicate SeedStores(seed: Seed, m: Memory) {
    seed.memory.Some? && seed.memory.value.id == m.id && seed.memory.value.text == m.text
  }

  /** Every stored memory is one of the seeds or was there before. */
  ghost predicate FromSeeds(memories: map<MemoryId, Memory>, before: map<MemoryId, Memory>, seeds: seq<Seed>) {
    forall id :: id in memories ==>
      (id in before && memories[id] == before[id]) || exists i :: 0 <= i < |seeds| && SeedStores(seeds[i], memories[id])
  }

  lemma {:induction false} SeedingStoresSeeds(st: Engine, seeds: seq<Seed>, dimOf: string -> nat)
    requires Safe(st, dimOf) && SeedAll(st, seeds).Some?
    ensures var st' := SeedAll(st, seeds).value;
            Safe(st', dimOf) && FromSeeds(st'.db.memories, st.db.memories, seeds)
    decreases |seeds|
  {
    if seeds != [] {
      var m := seeds[0].memory.value;
      var next := Remember(st, m, seeds[0].linked).state;
      RememberKeepsSafe(st, m, seeds[0].linked, dimOf);
      RememberTables(st, m, seeds[0].linked);
      SeedingStoresSeeds(next, seeds[1..], dimOf);
      OneMoreSeed(SeedAll(st, seeds).value.db.memories, next.db.memories, st.db.memories, seeds);
    }
  }

  lemma OneMoreSeed(
    memories: map<MemoryId, Memory>, next: map<MemoryId, Memory>, before: map<MemoryId, Memory>, seeds: seq<Seed>)
    requires seeds != [] && FromSeeds(memories, next, seeds[1..])
    requires forall id :: id in next ==> (id in before && next[id] == before[id]) || SeedStores(seeds[0], next[id])
    ensures FromSeeds(memories, before, seeds)
  {
    forall id | id in memories && !(id in before && memories[id] == before[id])
      ensures exists i :: 0 <= i < |seeds| && SeedStores(seeds[i], memories[id])
    {
      if id in next && memories[id] == next[id] {
        assert SeedStores(seeds[0], memories[id]);
      } else {
        var i :| 0 <= i < |seeds[1..]| && SeedStores(seeds[1..][i], memories[id]);
        assert SeedStores(seeds[i + 1], memories[id]);
      }
    }
  }

  /** No two seeds share a text or a corpus id. */
  ghost predicate Distinct(seeds: seq<Seed>) {
    && (forall i, j :: 0 <= i < j < |seeds| ==> seeds[i].corpusId != seeds[j].corpusId)
    && (forall i, j :: 0 <= i < j < |seeds| && seeds[i].memory.Some? && seeds[j].memory.Some? ==>
          seeds[i].memory.value.text != seeds[j].memory.value.text)
  }

  /** Distinct texts name distinct ids. */
  lemma {:induction false} IdsAreDistinct(seeds: seq<Seed>)
    requires Distinct(seeds)
    ensures forall t :: t in IdsByText(seeds) ==>
              exists i :: 0 <= i < |seeds| && seeds[i].memory.Some? && seeds[i].memory.value.text == t
                          && IdsByText(seeds)[t] == seeds[i].corpusId
    decreases |seeds|
  {
    if seeds != [] {
      var front := seeds[..|seeds| - 1];
      assert forall i :: 0 <= i < |front| ==> front[i] == seeds[i];
      IdsAreDistinct(front);
      forall t | t in IdsByText(seeds)
        ensures exists i :: 0 <= i < |seeds| && seeds[i].memory.Some? && seeds[i].memory.value.text == t
                            && IdsByText(seeds)[t] == seeds[i].corpusId
      {
        var last := seeds[|seeds| - 1];
        if t !in IdsByText(front) || (last.memory.Some? && t == last.memory.value.text) {
          assert IdsByText(seeds)[t] == seeds[|seeds| - 1].corpusId;
        } else {
          var i :| 0 <= i < |front| && front[i].memory.Some? && front[i].memory.value.text == t
                   && IdsByText(front)[t] == front[i].corpusId;
          assert IdsByText(seeds)[t] == seeds[i].corpusId;
        }
      }
    }
  }

  lemma IdsInjective(seeds: seq<Seed>, t: string, u: string)
    requires Distinct(seeds) && t in IdsByText(seeds) && u in IdsByText(seeds) && t != u
    ensures IdsByText(seeds)[t] != IdsByText(seeds)[u]
  {
    IdsAreDistinct(seeds);
    var i :| 0 <= i < |seeds| && seeds[i].memory.Some? && seeds[i].memory.value.text == t
             && IdsByText(seeds)[t] == seeds[i].corpusId;
    var j :| 0 <= j < |seeds| && seeds[j].memory.Some? && seeds[j].memory.value.text == u
             && IdsByText(seeds)[u] == seeds[j].corpusId;
    assert i != j;
  }

  // ---- No hit twice ---------------------------------------------------------

  ghost predicate DistinctPoints(ranking: seq<Neighbour>) {
    forall i, j :: 0 <= i < j < |ranking| ==> ranking[i].seqId != ranking[j].seqId
  }

  ghost predicate DistinctHits(hits: seq<IndexHit>) {
    NoDuplicates(hits) && forall h, g :: h in hits && g in hits && h.memoryId == g.memoryId ==> h == g
  }

  /** No two side-table entries stand for one memory. */
  ghost predicate OneEntryEach(side: map<nat, Point>) {
    forall s, t :: s in side && t in side && side[s].memoryId == side[t].memoryId ==> s == t
  }

  lemma {:induction false} LookupDistinct(side: map<nat, Point>, ranking: seq<Neighbour>)
    requires DistinctPoints(ranking) && OneEntryEach(side)
    ensures DistinctHits(Lookup(side, ranking))
    ensures forall h :: h in Lookup(side, ranking) ==>
              exists i :: 0 <= i < |ranking| && ranking[i].seqId in side
                          && side[ranking[i].seqId].memoryId == h.memoryId
  {
    if ranking != [] {
      var rest := ranking[1..];
      assert forall i :: 0 <= i < |rest| ==> rest[i] == ranking[i + 1];
      LookupDistinct(side, rest);
      forall h | h in Lookup(side, ranking)
        ensures exists i :: 0 <= i < |ranking| && ranking[i].seqId in side
                            && side[ranking[i].seqId].memoryId == h.memoryId
      {
        if h in Lookup(side, rest) {
          var i :| 0 <= i < |rest| && rest[i].seqId in side && side[rest[i].seqId].memoryId == h.memoryId;
          assert ranking[i + 1].seqId in side;
        } else {
          assert ranking[0].seqId in side;
        }
      }
      if ranking[0].seqId in side {
        forall h | h in Lookup(side, rest)
          ensures h.memoryId != side[ranking[0].seqId].memoryId
        {
          var i :| 0 <= i < |rest| && rest[i].seqId in side && side[rest[i].seqId].memoryId == h.memoryId;
          assert ranking[0].seqId != ranking[i + 1].seqId;
        }
      }
    }
  }

  /** Post-filtering keeps hits distinct. */
  lemma KeptDistinct(st: Engine, near: seq<Neighbour>, p: Params, dimOf: string -> nat)
    requires Safe(st, dimOf) && Descending(near) && DistinctPoints(near)
    ensures DistinctHits(PostFilter(Search(st.index, near), p))
  {
    var hits := Lookup(st.index.side, near);
    assert OneEntryEach(st.index.side) by {
      forall s, t | s in st.index.side && t in st.index.side && st.index.side[s].memoryId == st.index.side[t].memoryId
        ensures s == t
      {
        assert SameSlot(st.db.rows[s], st.db.rows[t]);
      }
    }
    LookupDistinct(st.index.side, near);
    LookupDescending(st.index.side, near);
    SortOfSorted(hits, MostSimilarFirst);
    FilterElements(hits, Matches(p));
    FilterKeepsNoDuplicates(hits, Matches(p));
    var kept := PostFilter(Search(st.index, near), p);
    assert forall h :: h in kept ==> h in Filter(hits, Matches(p));
  }

  ghost predicate DistinctFound(found: seq<MemoryHit>) {
    forall i, j :: 0 <= i < j < |found| ==> found[i].memory.id != found[j].memory.id
  }

  lemma SearchIsDistinct(st: Engine, ranking: seq<Neighbour>, p: Params, dimOf: string -> nat)
    requires Safe(st, dimOf) && Descending(ranking) && DistinctPoints(ranking)
    ensures var found := SearchMemory(st, ranking, p);
            && DistinctFound(found)
            && forall i :: 0 <= i < |found| ==> found[i].memory.id in st.db.memories
                                                && st.db.memories[found[i].memory.id] == found[i].memory
  {
    if p.limit > 0 {
      var near := Take(ranking, Oversample(p.limit));
      var kept := PostFilter(Search(st.index, near), Expand(p));
      KeptStand(st, near, Expand(p), dimOf);
      KeptDistinct(st, near, Expand(p), dimOf);
      assert forall i :: 0 <= i < |kept| ==> kept[i] in kept;
      FetchFinds(st.db.memories, kept);
      forall i, j | 0 <= i < j < |kept|
        ensures kept[i].memoryId != kept[j].memoryId
      {
        assert kept[i] in kept && kept[j] in kept && kept[i] != kept[j];
      }
    }
  }

  // ---- No id twice ----------------------------------------------------------

  ghost predicate DistinctTexts(found: seq<MemoryHit>) {
    forall i, j :: 0 <= i < j < |found| ==> found[i].memory.text != found[j].memory.text
  }

  lemma {:induction false} RankedComeFrom(found: seq<MemoryHit>, ids: map<string, Id>, id: Id)
    returns (i: nat)
    requires id in RankedIds(found, ids)
    ensures i < |found| && found[i].memory.text in ids && ids[found[i].memory.text] == id
    decreases |found|
  {
    if found[0].memory.text in ids && ids[found[0].memory.text] == id {
      i := 0;
    } else {
      i := RankedComeFrom(found[1..], ids, id);
      i := i + 1;
    }
  }

  lemma {:induction false} RankedDistinct(found: seq<MemoryHit>, seeds: seq<Seed>)
    requires DistinctTexts(found) && Distinct(seeds)
    ensures NoDuplicates(RankedIds(found, IdsByText(seeds)))
    decreases |found|
  {
    if found != [] {
      var ids := IdsByText(seeds);
      var rest := RankedIds(found[1..], ids);
      RankedDistinct(found[1..], seeds);
      if found[0].memory.text in ids {
        forall k | 0 <= k < |rest|
          ensures rest[k] != ids[found[0].memory.text]
        {
          var i := RankedComeFrom(found[1..], ids, rest[k]);
          assert found[1..][i] == found[i + 1];
          IdsInjective(seeds, found[0].memory.text, found[i + 1].memory.text);
        }
      }
    }
  }

  // ---- The range ------------------------------------------------------------

  /** A case that the search can rank: sound vectors, distinct seeds, and a graph
      that returns each point once, best first. */
  ghost predicate WellPosed(x: Case, dimOf: string -> nat) {
    && Faithful(x.embedder, dimOf) && Distinct(x.seeds)
    && var seeded := SeedAll(Boot(x.embedder), x.seeds);
       seeded.Some? && x.ranking(seeded.value).Some? ==>
         Descending(x.ranking(seeded.value).value) && DistinctPoints(x.ranking(seeded.value).value)
  }

  lemma StoredTextsDiffer(memories: map<MemoryId, Memory>, seeds: seq<Seed>, a: Memory, b: Memory)
    requires Distinct(seeds) && FromSeeds(memories, map[], seeds)
    requires a.id in memories && memories[a.id] == a && b.id in memories && memories[b.id] == b && a.id != b.id
    ensures a.text != b.text
  {
    var i :| 0 <= i < |seeds| && SeedStores(seeds[i], a);
    var j :| 0 <= j < |seeds| && SeedStores(seeds[j], b);
    assert i != j;
  }

  lemma RankingHasNoDuplicates(x: Case, st: Engine, dimOf: string -> nat)
    requires WellPosed(x, dimOf) && SeedAll(Boot(x.embedder), x.seeds) == Some(st) && x.ranking(st).Some?
    ensures NoDuplicates(RankedIds(
              SearchMemory(st, x.ranking(st).value, Params(Some(x.scope), None, 0.0, K)), IdsByText(x.seeds)))
  {
    var p := Params(Some(x.scope), None, 0.0, K);
    var found := SearchMemory(st, x.ranking(st).value, p);
    assert Boot(x.embedder).index.side == Mirror(Boot(x.embedder).db.rows, x.embedder.model);
    SeedingStoresSeeds(Boot(x.embedder), x.seeds, dimOf);
    SearchIsDistinct(st, x.ranking(st).value, p, dimOf);
    forall i, j | 0 <= i < j < |found|
      ensures found[i].memory.text != found[j].memory.text
    {
      StoredTextsDiffer(st.db.memories, x.seeds, found[i].memory, found[j].memory);
    }
    RankedDistinct(found, x.seeds);
  }

  predicate InUnit(s: Score) {
    0.0 <= s.mrr <= 1.0 && 0.0 <= s.ndcg <= 1.0
  }

  lemma ReciprocalRankRange(ranked: seq<Id>, relevant: set<Id>)
    ensures 0.0 <= ReciprocalRank(ranked, relevant) <= 1.0
  {
    DivisionBounds(1.0, (FirstHit(ranked, relevant) + 1) as real);
  }

  lemma CaseInUnit(x: Case, c: Scoring, bench: Bench, dimOf: string -> nat)
    requires WellPosed(x, dimOf) && Decreasing(bench.discount) && ScoreCase(x, c, bench).Some?
    ensures InUnit(ScoreCase(x, c, bench).value)
  {
    var st := SeedAll(Boot(x.embedder), x.seeds).value;
    var ranked := RankedIds(
      SearchMemory(st, x.ranking(st).value, Params(Some(x.scope), None, 0.0, K)), IdsByText(x.seeds));
    RankingHasNoDuplicates(x, st, dimOf);
    ReciprocalRankRange(ranked, x.relevant);
    NdcgRange(ranked, x.relevant, K, bench.discount);
  }

  lemma {:induction false} SumsInRange(cases: seq<Case>, c: Scoring, bench: Bench, dimOf: string -> nat)
    requires Decreasing(bench.discount) && forall i :: 0 <= i < |cases| ==> WellPosed(cases[i], dimOf)
    requires SumScores(cases, c, bench).Some?
    ensures var s := SumScores(cases, c, bench).value;
            0.0 <= s.mrr <= |cases| as real && 0.0 <= s.ndcg <= |cases| as real
  {
    if cases != [] {
      assert WellPosed(cases[0], dimOf);
      CaseInUnit(cases[0], c, bench, dimOf);
      assert forall i :: 0 <= i < |cases[1..]| ==> cases[1..][i] == cases[i + 1];
      SumsInRange(cases[1..], c, bench, dimOf);
      assert |cases| as real == |cases[1..]| as real + 1.0;
    }
  }

  lemma MeanInUnit(sum: real, n: nat)
    requires 0.0 <= sum <= n as real
    ensures 0.0 <= Mean(sum, n) <= 1.0
  {
    if n > 0 {
      DivisionBounds(sum, n as real);
    }
  }

  /** The fitness of a corpus of well-posed cases lies between zero and one. */
  lemma FitnessInUnit(cases: seq<Case>, c: Scoring, bench: Bench, dimOf: string -> nat)
    requires Decreasing(bench.discount) && forall i :: 0 <= i < |cases| ==> WellPosed(cases[i], dimOf)
    requires CorpusScore(cases, c, bench).Some?
    ensures 0.0 <= Fitness(CorpusScore(cases, c, bench).value) <= 1.0
  {
    SumsInRange(cases, c, bench, dimOf);
    var s := SumScores(cases, c, bench).value;
    MeanInUnit(s.mrr, |cases|);
    MeanInUnit(s.ndcg, |cases|);
  }

  // ---- What a perfect or an empty corpus scores -----------------------------

  lemma {:induction false} RankedInOrder(a: seq<MemoryHit>, b: seq<MemoryHit>, ids: map<string, Id>)
    ensures RankedIds(a + b, ids) == RankedIds(a, ids) + RankedIds(b, ids)
    ensures |a| == 1 ==> RankedIds(a, ids) == if a[0].memory.text in ids then [ids[a[0].memory.text]] else []
    decreases |a|
  {
    if a == [] {
      assert a + b == b;
    } else {
      var head := if a[0].memory.text in ids then [ids[a[0].memory.text]] else [];
      RankedInOrder(a[1..], b, ids);
      assert (a + b)[0] == a[0] && (a + b)[1..] == a[1..] + b;
      JoinIds(head, RankedIds(a[1..], ids), RankedIds(b, ids));
      assert |a| == 1 ==> RankedIds(a[1..], ids) == [] && head + [] == head;
    }
  }

  lemma JoinIds(a: seq<Id>, b: seq<Id>, c: seq<Id>)
    ensures a + (b + c) == (a + b) + c
  {}

  /** The scores of a case: those of the first ten hits of an unfiltered search in
      the case's scopes, as corpus ids in the order found. */
  lemma CaseEffect(x: Case, c: Scoring, bench: Bench)
    requires ScoreCase(x, c, bench).Some?
    ensures var st := SeedAll(Boot(x.embedder), x.seeds).value;
            var found := SearchMemory(st, x.ranking(st).value, Params(Some(x.scope), None, 0.0, 10));
            var ranked := RankedIds(found, IdsByText(x.seeds));
            var s := ScoreCase(x, c, bench).value;
            && s.mrr == ReciprocalRank(ranked, x.relevant) && s.recall == Recall(ranked, x.relevant, 10)
            && s.ndcg == Ndcg(ranked, x.relevant, 10, bench.discount)
  {}

  /** The relevant ids that a memory of the package stands for. */
  ghost function Shown(p: Package, ids: map<string, Id>, relevant: set<Id>): set<Id> {
    set id | id in relevant && exists m :: m in AllMemories(p) && m.text in ids && ids[m.text] == id
  }

  /** The package recall of a case: the share of the relevant ids shown in the
      package of a read with the best 64 neighbours, in the case's scopes and
      budget, under the configuration. */
  lemma PackageRecallEffect(x: Case, c: Scoring, bench: Bench)
    requires ScoreCase(x, c, bench).Some?
    ensures var st := SeedAll(Boot(x.embedder), x.seeds).value;
            var ranking := x.ranking(st).value;
            var near := if 64 < |ranking| then ranking[..64] else ranking;
            var req := Request(x.scope, bench.lens, x.budget, near, x.anchors, x.now);
            var p := ReadContext(st.db, st.index, req, c, bench.decay, x.walk(MergedItems(st.db, st.index, req))).0;
            ScoreCase(x, c, bench).value.packageRecall
            == if x.relevant == {} then 1.0
               else |Shown(p, IdsByText(x.seeds), x.relevant)| as real / |x.relevant| as real
  {
    var st := SeedAll(Boot(x.embedder), x.seeds).value;
    ShownShare(PackageOf(x, st, x.ranking(st).value, c, bench), IdsByText(x.seeds), x.relevant);
  }

  lemma ShownShare(p: Package, ids: map<string, Id>, relevant: set<Id>)
    ensures PackageRecall(p, ids, relevant)
            == if relevant == {} then 1.0 else |Shown(p, ids, relevant)| as real / |relevant| as real
  {
    assert Shown(p, ids, relevant) == relevant * PresentIds(AllMemories(p), ids);
  }

  predicate FullMarks(s: Option<Score>) {
    s.Some? && s.value.mrr == 1.0 && s.value.ndcg == 1.0
  }

  /** Every case scores full marks. */
  predicate AllFull(cases: seq<Case>, c: Scoring, bench: Bench) {
    cases == [] || (FullMarks(ScoreCase(cases[0], c, bench)) && AllFull(cases[1..], c, bench))
  }

  lemma {:induction false} FullSums(cases: seq<Case>, c: Scoring, bench: Bench, dimOf: string -> nat)
    requires Decreasing(bench.discount) && forall i :: 0 <= i < |cases| ==> WellPosed(cases[i], dimOf)
    requires SumScores(cases, c, bench).Some?
    ensures var s := SumScores(cases, c, bench).value;
            s.mrr == |cases| as real && s.ndcg == |cases| as real <==> AllFull(cases, c, bench)
  {
    if cases != [] {
      assert WellPosed(cases[0], dimOf);
      CaseInUnit(cases[0], c, bench, dimOf);
      assert forall i :: 0 <= i < |cases[1..]| ==> cases[1..][i] == cases[i + 1];
      SumsInRange(cases[1..], c, bench, dimOf);
      FullSums(cases[1..], c, bench, dimOf);
      var first, rest := ScoreCase(cases[0], c, bench).value, SumScores(cases[1..], c, bench).value;
      assert |cases| as real == |cases[1..]| as real + 1.0;
      FullSum(first.mrr, rest.mrr, |cases[1..]| as real);
      FullSum(first.ndcg, rest.ndcg, |cases[1..]| as real);
      assert SumScores(cases, c, bench) == Some(Plus(first, rest));
    }
  }

  lemma FullSum(first: real, rest: real, n: real)
    requires first <= 1.0 && rest <= n
    ensures first + rest == n + 1.0 <==> first == 1.0 && rest == n
  {}

  lemma MeanIsOne(sum: real, n: nat)
    requires n > 0
    ensures Mean(sum, n) == 1.0 <==> sum == n as real
  {}

  /** The fitness is the midpoint of the mean reciprocal rank and the mean nDCG,
      and is one exactly when every case scores full marks. */
  lemma FitnessEffect(cases: seq<Case>, c: Scoring, bench: Bench, dimOf: string -> nat)
    requires cases != [] && Decreasing(bench.discount)
    requires forall i :: 0 <= i < |cases| ==> WellPosed(cases[i], dimOf)
    requires CorpusScore(cases, c, bench).Some?
    ensures var s := CorpusScore(cases, c, bench).value;
            && Fitness(s) - s.mrr == s.ndcg - Fitness(s)
            && (Fitness(s) == 1.0 <==> AllFull(cases, c, bench))
  {
    var sums := SumScores(cases, c, bench).value;
    SumsInRange(cases, c, bench, dimOf);
    FullSums(cases, c, bench, dimOf);
    MeanInUnit(sums.mrr, |cases|);
    MeanInUnit(sums.ndcg, |cases|);
    MeanIsOne(sums.mrr, |cases|);
    MeanIsOne(sums.ndcg, |cases|);
  }
}
