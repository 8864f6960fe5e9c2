/** Laws of the read path: the greedy fill, the token budget, independence from
    the order of the hash map and from the scale of the weights, and what every
    run of the engine guarantees about a package. */
module ReadPathLaws {
  import opened Domain
  import opened Sorting
  import opened Tables
  import opened VectorIndexes
  import opened Engines
  import opened IndexInvariant
  import opened Conflicts
  import opened Coverage
  import opened OneScope
  import opened ReadPath
  import opened ReadPathSafety

  // ---- The greedy fill ------------------------------------------------------

  function TokensIn(items: seq<Scored>): nat {
    if items == [] then 0 else TokensOf(items[0].item.memory.text) + TokensIn(items[1..])
  }

  /** The first n items respect the cap and, beyond a first item that is always
      let in, the budget. */
  ghost predicate Fits(items: seq<Scored>, n: nat, max: nat, budget: nat) {
    n <= |items| && n <= max && (n <= 1 || TokensIn(items[..n]) <= budget)
  }

  ghost predicate FitsFrom(items: seq<Scored>, n: nat, taken: nat, consumed: nat, max: nat, budget: nat) {
    n == 0 || (n <= |items| && taken + n <= max && (taken + n <= 1 || consumed + TokensIn(items[..n]) <= budget))
  }

  lemma {:induction false} FillIsLongest(items: seq<Scored>, taken: nat, consumed: nat, max: nat, budget: nat)
    ensures FitsFrom(items, Fill(items, taken, consumed, max, budget), taken, consumed, max, budget)
    ensures forall m: nat :: FitsFrom(items, m, taken, consumed, max, budget) ==>
              m <= Fill(items, taken, consumed, max, budget)
  {
    if items != [] && taken < max {
      var tokens := TokensOf(items[0].item.memory.text);
      forall m: nat | 0 < m <= |items|
        ensures TokensIn(items[..m]) == tokens + TokensIn(items[1..][..m - 1])
      {
        assert items[..m][1..] == items[1..][..m - 1];
      }
      if !(consumed + tokens > budget && taken > 0) {
        FillIsLongest(items[1..], taken + 1, consumed + tokens, max, budget);
        forall m: nat | 0 < m && FitsFrom(items, m, taken, consumed, max, budget)
          ensures FitsFrom(items[1..], m - 1, taken + 1, consumed + tokens, max, budget)
        {}
      }
    }
  }

  /** Each bucket is the longest prefix of its kind, in score order, that fits. */
  lemma KeptIsLongestPrefix(ranked: seq<Scored>, lens: Lens, kind: MemoryKind, total: nat)
    ensures var items, kept := Bucket(ranked, kind), Kept(ranked, lens, kind, total);
            && kept <= items
            && Fits(items, |kept|, lens.maxPerKind, BudgetFor(lens, kind, total))
            && forall m: nat :: Fits(items, m, lens.maxPerKind, BudgetFor(lens, kind, total)) ==> m <= |kept|
  {
    var items := Bucket(ranked, kind);
    FillIsLongest(items, 0, 0, lens.maxPerKind, BudgetFor(lens, kind, total));
    forall m: nat | Fits(items, m, lens.maxPerKind, BudgetFor(lens, kind, total))
      ensures FitsFrom(items, m, 0, 0, lens.maxPerKind, BudgetFor(lens, kind, total))
    {}
  }

  // ---- The token budget -----------------------------------------------------

  ghost predicate Balanced(lens: Lens) {
    && lens.claimWeight >= 0.0 && lens.decisionWeight >= 0.0
    && lens.preferenceWeight >= 0.0 && lens.episodeWeight >= 0.0
    && WeightSum(lens) > 0.0
  }

  function Share(lens: Lens, kind: MemoryKind, total: nat): real
    requires WeightSum(lens) > 0.0
  {
    total as real * (WeightFor(lens, kind) / WeightSum(lens))
  }

  lemma SharesAddUp(lens: Lens, total: nat)
    requires Balanced(lens)
    ensures Share(lens, Claim, total) + Share(lens, Decision, total)
            + Share(lens, Preference, total) + Share(lens, Episode, total) == total as real
  {}

  /** The four budgets together miss the total by less than two tokens below and
      at most two above. */
  lemma BudgetsTotal(lens: Lens, total: nat)
    requires Balanced(lens)
    ensures total - 1 <= BudgetFor(lens, Claim, total) + BudgetFor(lens, Decision, total)
                         + BudgetFor(lens, Preference, total) + BudgetFor(lens, Episode, total) <= total + 2
  {
    SharesAddUp(lens, total);
    forall kind
      ensures Share(lens, kind, total) - 0.5 < BudgetFor(lens, kind, total) as real <= Share(lens, kind, total) + 0.5
    {
      assert BudgetFor(lens, kind, total) == (Share(lens, kind, total) + 0.5).Floor;
    }
    var a, b := BudgetFor(lens, Claim, total), BudgetFor(lens, Decision, total);
    var c, d := BudgetFor(lens, Preference, total), BudgetFor(lens, Episode, total);
    assert (a + b + c + d) as real == a as real + b as real + c as real + d as real;
    assert total as real - 2.0 < (a + b + c + d) as real <= total as real + 2.0;
  }

  lemma {:induction false} SumTokensOfItems(items: seq<Scored>)
    ensures SumTokens(MemoriesOf(items)) == TokensIn(items)
  {
    if items != [] {
      SumTokensOfItems(items[1..]);
      assert MemoriesOf(items)[1..] == MemoriesOf(items[1..]);
    }
  }

  /** A bucket stays within its budget unless its first item alone exceeds it. */
  lemma BucketWithinBudget(ranked: seq<Scored>, lens: Lens, kind: MemoryKind, total: nat)
    ensures var memories := MemoriesOf(Kept(ranked, lens, kind, total));
            || SumTokens(memories) <= BudgetFor(lens, kind, total)
            || (|memories| == 1 && TokensOf(memories[0].text) > BudgetFor(lens, kind, total))
  {
    var kept := Kept(ranked, lens, kind, total);
    KeptIsLongestPrefix(ranked, lens, kind, total);
    SumTokensOfItems(kept);
    MemoriesOfElements(kept);
    assert kept == Bucket(ranked, kind)[..|kept|];
    if |kept| == 1 {
      assert TokensIn(kept) == TokensOf(kept[0].item.memory.text) + TokensIn(kept[1..]);
    }
  }

  /** The token estimate exceeds the budget by at most two tokens, unless some
      bucket consists of one memory larger than its share. */
  lemma TokenEstimateWithinBudget(db: Db, ranked: seq<Scored>, req: Request)
    requires Balanced(req.lens)
    ensures var p := Assemble(db, ranked, req).0;
            || p.tokenEstimate <= req.tokenBudget + 2
            || exists kind :: |InBucket(p, kind)| == 1
                              && TokensOf(InBucket(p, kind)[0].text) > BudgetFor(req.lens, kind, req.tokenBudget)
  {
    BudgetsTotal(req.lens, req.tokenBudget);
    BucketFits(db, ranked, req, Claim);
    BucketFits(db, ranked, req, Decision);
    BucketFits(db, ranked, req, Preference);
    BucketFits(db, ranked, req, Episode);
  }

  lemma BucketFits(db: Db, ranked: seq<Scored>, req: Request, kind: MemoryKind)
    ensures var bucket := InBucket(Assemble(db, ranked, req).0, kind);
            || SumTokens(bucket) <= BudgetFor(req.lens, kind, req.tokenBudget)
            || (|bucket| == 1 && TokensOf(bucket[0].text) > BudgetFor(req.lens, kind, req.tokenBudget))
  {
    BucketWithinBudget(ranked, req.lens, kind, req.tokenBudget);
  }

  // ---- Independence from the hash map's order -------------------------------

  predicate Tie(x: Scored, y: Scored) {
    BestFirst(x, y) && BestFirst(y, x)
  }

  /** Items of one kind differ in score or in update time. */
  ghost predicate NoTiesWithinKinds(scored: seq<Scored>) {
    forall x, y :: x in scored && y in scored && x.item.memory.kind == y.item.memory.kind && Tie(x, y) ==> x == y
  }

  lemma RankedBucketsAgree(a: seq<Scored>, b: seq<Scored>, kind: MemoryKind)
    requires NoDuplicates(a) && NoDuplicates(b) && (forall x :: x in a <==> x in b) && NoTiesWithinKinds(a)
    ensures Bucket(Sort(a, BestFirst), kind) == Bucket(Sort(b, BestFirst), kind)
  {
    SortElements(a, BestFirst);
    SortElements(b, BestFirst);
    SortSorts(a, BestFirst);
    SortSorts(b, BestFirst);
    SortKeepsNoDuplicates(a, BestFirst);
    SortKeepsNoDuplicates(b, BestFirst);
    forall x, y | x in a && y in a && x.item.memory.kind == kind && y.item.memory.kind == kind
                  && BestFirst(x, y) && BestFirst(y, x)
      ensures x == y
    {
      assert Tie(x, y);
    }
    SortedFiltersAgree(Sort(a, BestFirst), Sort(b, BestFirst), (x: Scored) => x.item.memory.kind == kind, BestFirst);
  }

  /** When no two items of one kind at or above the floor agree in both score and
      update time, the package does not depend on the walk, and neither does its
      report up to the order in which an entry lists its sources. */
  lemma PackageIgnoresWalk(
    db: Db, index: Index, req: Request, scoring: Scoring, decay: Decay, walk: seq<MemoryId>, other: seq<MemoryId>)
    requires KeyedItems(MergedItems(db, index, req))
    requires Walks(walk, MergedItems(db, index, req)) && Walks(other, MergedItems(db, index, req))
    requires NoTiesWithinKinds(ScoreAll(MergedItems(db, index, req), walk, req, scoring, decay))
    ensures ReadContext(db, index, req, scoring, decay, walk) == ReadContext(db, index, req, scoring, decay, other)
  {
    var items := MergedItems(db, index, req);
    var a := ScoreAll(items, walk, req, scoring, decay);
    var b := ScoreAll(items, other, req, scoring, decay);
    WalksScoreTheSame(items, walk, other, req, scoring, decay);
    RankedBucketsAgree(a, b, Claim);
    RankedBucketsAgree(a, b, Decision);
    RankedBucketsAgree(a, b, Preference);
    RankedBucketsAgree(a, b, Episode);
    SameBucketsSamePackage(db, Sort(a, BestFirst), Sort(b, BestFirst), req);
  }

  lemma WalksScoreTheSame(
    items: map<MemoryId, WorkItem>, walk: seq<MemoryId>, other: seq<MemoryId>, req: Request, scoring: Scoring,
    decay: Decay)
    requires KeyedItems(items) && Walks(walk, items) && Walks(other, items)
    ensures var a, b := ScoreAll(items, walk, req, scoring, decay), ScoreAll(items, other, req, scoring, decay);
            NoDuplicates(a) && NoDuplicates(b) && forall x :: x in a <==> x in b
  {
    ScoreAllElements(items, walk, req, scoring, decay);
    ScoreAllElements(items, other, req, scoring, decay);
  }

  lemma SameBucketsSamePackage(db: Db, a: seq<Scored>, b: seq<Scored>, req: Request)
    requires Bucket(a, Claim) == Bucket(b, Claim) && Bucket(a, Decision) == Bucket(b, Decision)
    requires Bucket(a, Preference) == Bucket(b, Preference) && Bucket(a, Episode) == Bucket(b, Episode)
    ensures Assemble(db, a, req) == Assemble(db, b, req)
  {}

  // ---- Independence from the scale of the weights ---------------------------

  function Scale(s: Scoring, factor: real): Scoring {
    Scoring(factor * s.vectorWeight, factor * s.entityWeight, factor * s.recencyWeight, factor * s.confidenceWeight,
            s.halfLife)
  }

  function Rescale(factor: real): Scored -> Scored {
    (x: Scored) => x.(score := factor * x.score)
  }

  lemma {:induction false} ScoreAllScales(
    items: map<MemoryId, WorkItem>, walk: seq<MemoryId>, req: Request, s: Scoring, decay: Decay, factor: real)
    ensures ScoreAll(items, walk, req, Scale(s, factor), decay)
            == Map(Rescale(factor), ScoreAll(items, walk, req, s, decay))
    decreases |walk|
  {
    if walk != [] {
      ScoreAllScales(items, walk[1..], req, s, decay, factor);
      if walk[0] in items && items[walk[0]].memory.confidence >= req.lens.minConfidence {
        ScoreScales(items[walk[0]], s, decay, req.now, factor);
      } else {
        assert ScoreAll(items, walk, req, s, decay) == ScoreAll(items, walk[1..], req, s, decay);
      }
    }
  }

  lemma ScoreScales(w: WorkItem, s: Scoring, decay: Decay, now: int, factor: real)
    ensures Score(w, Scale(s, factor), decay, now) == Rescale(factor)(Score(w, s, decay, now))
  {}

  lemma BestFirstScales(x: Scored, y: Scored, factor: real)
    requires factor > 0.0
    ensures BestFirst(Rescale(factor)(x), Rescale(factor)(y)) == BestFirst(x, y)
  {}

  lemma {:induction false} MemoriesOfRescaled(items: seq<Scored>, factor: real)
    ensures MemoriesOf(Map(Rescale(factor), items)) == MemoriesOf(items)
  {
    if items != [] {
      MemoriesOfRescaled(items[1..], factor);
      assert Map(Rescale(factor), items)[1..] == Map(Rescale(factor), items[1..]);
    }
  }

  lemma {:induction false} FillOfRescaled(
    items: seq<Scored>, taken: nat, consumed: nat, max: nat, budget: nat, factor: real)
    ensures Fill(Map(Rescale(factor), items), taken, consumed, max, budget) == Fill(items, taken, consumed, max, budget)
  {
    if items != [] {
      assert Map(Rescale(factor), items)[1..] == Map(Rescale(factor), items[1..]);
      FillOfRescaled(items[1..], taken + 1, consumed + TokensOf(items[0].item.memory.text), max, budget, factor);
    }
  }

  lemma {:induction false} MapOfPrefix<T, U>(f: T -> U, s: seq<T>, n: nat)
    requires n <= |s|
    ensures |Map(f, s)| == |s| && Map(f, s)[..n] == Map(f, s[..n])
  {
    MapElements(f, s);
    MapElements(f, s[..n]);
  }

  lemma KeptOfRescaled(ranked: seq<Scored>, lens: Lens, kind: MemoryKind, total: nat, factor: real)
    ensures MemoriesOf(Kept(Map(Rescale(factor), ranked), lens, kind, total))
            == MemoriesOf(Kept(ranked, lens, kind, total))
  {
    var ofKind := (x: Scored) => x.item.memory.kind == kind;
    FilterCommutesWithMap(Rescale(factor), ranked, ofKind, ofKind);
    var items := Bucket(ranked, kind);
    assert Bucket(Map(Rescale(factor), ranked), kind) == Map(Rescale(factor), items);
    var n := Fill(items, 0, 0, lens.maxPerKind, BudgetFor(lens, kind, total));
    FillOfRescaled(items, 0, 0, lens.maxPerKind, BudgetFor(lens, kind, total), factor);
    MapOfPrefix(Rescale(factor), items, n);
    MemoriesOfRescaled(items[..n], factor);
  }

  /** Multiplying all four weights by one positive factor leaves the package
      unchanged. */
  lemma PackageIgnoresScale(
    db: Db, index: Index, req: Request, s: Scoring, decay: Decay, walk: seq<MemoryId>, factor: real)
    requires factor > 0.0
    ensures ReadContext(db, index, req, Scale(s, factor), decay, walk).0
            == ReadContext(db, index, req, s, decay, walk).0
  {
    var items := MergedItems(db, index, req);
    var scored := ScoreAll(items, walk, req, s, decay);
    ScoreAllScales(items, walk, req, s, decay, factor);
    forall x, y
      ensures BestFirst(Rescale(factor)(x), Rescale(factor)(y)) == BestFirst(x, y)
    {
      BestFirstScales(x, y, factor);
    }
    SortCommutesWithMap(Rescale(factor), scored, BestFirst, BestFirst);
    var ranked := Sort(scored, BestFirst);
    KeptOfRescaled(ranked, req.lens, Claim, req.tokenBudget, factor);
    KeptOfRescaled(ranked, req.lens, Decision, req.tokenBudget, factor);
    KeptOfRescaled(ranked, req.lens, Preference, req.tokenBudget, factor);
    KeptOfRescaled(ranked, req.lens, Episode, req.tokenBudget, factor);
  }

  // ---- Packages along a run -------------------------------------------------

  /** After any run of a fresh daemon, whatever failed on the way. */
  lemma EveryRunReadsSoundly(
    embedder: Embedder, ops: seq<Op>, dimOf: string -> nat,
    req: Request, scoring: Scoring, decay: Decay, walk: seq<MemoryId>)
    requires Faithful(embedder, dimOf) && forall i :: 0 <= i < |ops| ==> FaithfulOp(ops[i], dimOf)
    requires var st := Run(Boot(embedder), ops); Walks(walk, MergedItems(st.db, st.index, req))
    ensures var st := Run(Boot(embedder), ops);
            var (p, entries) := ReadContext(st.db, st.index, req, scoring, decay, walk);
            && (forall kind, m :: m in InBucket(p, kind) ==>
                  && m.kind == kind && Eligible(st.db, m, ExpandInherited(req.scope))
                  && m.confidence >= req.lens.minConfidence)
            && NoDuplicates(Ids(AllMemories(p))) && EntryIds(entries) == Ids(AllMemories(p))
  {
    assert Boot(embedder).index.side == Mirror(Boot(embedder).db.rows, embedder.model);
    RunKeepsSafe(Boot(embedder), ops, dimOf);
    var st := Run(Boot(embedder), ops);
    ReadContextIsSound(st, dimOf, req, scoring, decay, walk);
  }

  lemma PackageMembers(p: Package)
    ensures forall m :: m in AllMemories(p) ==> exists kind :: m in InBucket(p, kind)
  {
    forall m | m in AllMemories(p)
      ensures exists kind :: m in InBucket(p, kind)
    {
      assert m in InBucket(p, Claim) || m in InBucket(p, Decision)
             || m in InBucket(p, Preference) || m in InBucket(p, Episode);
    }
  }

  ghost predicate Surfaced(conflicts: seq<Conflict>, a: MemoryId, b: MemoryId) {
    exists c :: c in conflicts && c.resolution == Unresolved && a in c.members && b in c.members
  }

  lemma ContestInScopeIsSurfaced(db: Db, scopes: Scope, a: Memory, b: Memory)
    requires Tidy(db) && Covered(db)
    requires Eligible(db, a, scopes) && Eligible(db, b, scopes) && Contradict(a, b)
    ensures Surfaced(OpenConflicts(db.conflicts, scopes), a.id, b.id)
  {
    assert ActiveIn(db, a.id) && ActiveIn(db, b.id);
    assert Contested(db.conflicts, a.id, b.id);
    var i :| 0 <= i < |db.conflicts| && db.conflicts[i].resolution == Unresolved
             && a.id in db.conflicts[i].members && b.id in db.conflicts[i].members;
    var c := db.conflicts[i];
    assert MemberFits(db, c, a.id);
    FilterElements(db.conflicts, (c: Conflict) => c.resolution == Unresolved && Intersects(scopes, c.scope));
    assert c in OpenConflicts(db.conflicts, scopes);
  }

  /** When every memory carries one scope and every contradiction is covered, a
      package that shows two contradicting memories also shows an unresolved
      conflict naming both. */
  lemma ContestedIsSurfaced(
    embedder: Embedder, ops: seq<Op>, dimOf: string -> nat,
    req: Request, scoring: Scoring, decay: Decay, walk: seq<MemoryId>)
    requires Faithful(embedder, dimOf) && forall i :: 0 <= i < |ops| ==> FaithfulOp(ops[i], dimOf)
    requires CoveredRun(Boot(embedder), ops) && OneScopes(Run(Boot(embedder), ops).db)
    requires var st := Run(Boot(embedder), ops); Walks(walk, MergedItems(st.db, st.index, req))
    ensures var st := Run(Boot(embedder), ops);
            var p := ReadContext(st.db, st.index, req, scoring, decay, walk).0;
            forall a, b :: a in AllMemories(p) && b in AllMemories(p) && Contradict(a, b) ==>
                             Surfaced(p.conflicts, a.id, b.id)
  {
    var st := Run(Boot(embedder), ops);
    var p := ReadContext(st.db, st.index, req, scoring, decay, walk).0;
    EveryRunReadsSoundly(embedder, ops, dimOf, req, scoring, decay, walk);
    PackageMembers(p);
    RunIsTidyAndCovered(embedder, ops);
    var scopes := ExpandInherited(req.scope);
    assert p.conflicts == OpenConflicts(st.db.conflicts, scopes);
    forall a, b | a in AllMemories(p) && b in AllMemories(p) && Contradict(a, b)
      ensures Surfaced(p.conflicts, a.id, b.id)
    {
      ContestInScopeIsSurfaced(st.db, scopes, a, b);
    }
  }

  lemma RunIsTidyAndCovered(embedder: Embedder, ops: seq<Op>)
    requires CoveredRun(Boot(embedder), ops) && OneScopes(Run(Boot(embedder), ops).db)
    ensures Tidy(Run(Boot(embedder), ops).db) && Covered(Run(Boot(embedder), ops).db)
  {
    RunKeepsCovered(Boot(embedder), ops);
    RunKeepsTidy(Boot(embedder), ops);
  }
}
