/** What tuning maximises: the mean reciprocal rank and nDCG of vector searches over
    seeded daemons. The scoring weights rank packages, and vector search never
    looks at them. */
module TuningObjective {
  import opened Domain
  import opened Sorting
  import opened VectorIndexes
  import opened Engines
  import opened MemorySearch
  import opened ReadPath
  import opened ReadPathSafety
  import opened ReadPathLaws
  import opened Metrics
  import opened Tune

  const K: nat := 10

  /** A memory to seed, or none when its kind is unknown, with the resolver's
      answer for it and its id in the corpus. */
  datatype Seed = Seed(memory: Option<Memory>, linked: Option<seq<EntityId>>, corpusId: Id)

  /** A query over seeded memories. What the graph of the seeded daemon returns for
      it is an input, as are the matched entities, the clock and the order in which
      merged items are walked; None is a query that cannot be embedded. */
  datatype Case = Case(
    embedder: Embedder, seeds: seq<Seed>, scope: Scope, budget: nat, relevant: set<Id>,
    ranking: Engine -> Option<seq<Neighbour>>,
    anchors: seq<EntityId>, now: int, walk: map<MemoryId, WorkItem> -> seq<MemoryId>)

  /** The lens, recency decay and discount of the evaluation. */
  datatype Bench = Bench(lens: Lens, decay: Decay, discount: Discount)

  // ---- One case -------------------------------------------------------------

  function SeedAll(st: Engine, seeds: seq<Seed>): Option<Engine>
    decreases |seeds|
  {
    if seeds == [] then Some(st)
    else if seeds[0].memory.None? then None
    else match Remember(st, seeds[0].memory.value, seeds[0].linked)
      case Failed(_, _) => None
      case Done(next) => SeedAll(next, seeds[1..])
  }

  /** Corpus ids by text; of two seeds with one text the later counts. */
  function IdsByText(seeds: seq<Seed>): map<string, Id>
    decreases |seeds|
  {
    if seeds == [] then map[]
    else
      var last := seeds[|seeds| - 1];
      var earlier := IdsByText(seeds[..|seeds| - 1]);
      if last.memory.None? then earlier else earlier[last.memory.value.text := last.corpusId]
  }

  function RankedIds(hits: seq<MemoryHit>, ids: map<string, Id>): seq<Id> {
    if hits == [] then []
    else (if hits[0].memory.text in ids then [ids[hits[0].memory.text]] else []) + RankedIds(hits[1..], ids)
  }

  function PresentIds(memories: seq<Memory>, ids: map<string, Id>): set<Id> {
    set m | m in memories && m.text in ids :: ids[m.text]
  }

  function PackageRecall(p: Package, ids: map<string, Id>, relevant: set<Id>): real {
    if relevant == {} then 1.0
    else |relevant * PresentIds(AllMemories(p), ids)| as real / |relevant| as real
  }

  datatype Score = Score(packageRecall: real, mrr: real, recall: real, ndcg: real)

  const VECTOR_OVERSAMPLE: nat := 64

  /** The package the seeded daemon reads under the configuration. */
  function PackageOf(x: Case, st: Engine, ranking: seq<Neighbour>, c: Scoring, bench: Bench): Package {
    var req := Request(x.scope, bench.lens, x.budget, Take(ranking, VECTOR_OVERSAMPLE), x.anchors, x.now);
    ReadContext(st.db, st.index, req, c, bench.decay, x.walk(MergedItems(st.db, st.index, req))).0
  }

  /** Seeds a daemon, sets its scoring, searches, reads a package, and scores what
      came back. */
  function ScoreCase(x: Case, c: Scoring, bench: Bench): Option<Score> {
    match SeedAll(Boot(x.embedder), x.seeds)
    case None => None
    case Some(st) =>
      match x.ranking(st)
      case None => None
      case Some(ranking) =>
        var ids := IdsByText(x.seeds);
        var ranked := RankedIds(SearchMemory(st, ranking, Params(Some(x.scope), None, 0.0, K)), ids);
        Some(Score(PackageRecall(PackageOf(x, st, ranking, c, bench), ids, x.relevant),
                   ReciprocalRank(ranked, x.relevant), Recall(ranked, x.relevant, K),
                   Ndcg(ranked, x.relevant, K, bench.discount)))
  }

  // ---- The corpus -----------------------------------------------------------

  function Plus(a: Score, b: Score): Score {
    Score(a.packageRecall + b.packageRecall, a.mrr + b.mrr, a.recall + b.recall, a.ndcg + b.ndcg)
  }

  /** Sums over the cases; None when one of them fails. */
  function SumScores(cases: seq<Case>, c: Scoring, bench: Bench): Option<Score> {
    if cases == [] then Some(Score(0.0, 0.0, 0.0, 0.0))
    else
      match (ScoreCase(cases[0], c, bench), SumScores(cases[1..], c, bench))
      case (Some(a), Some(b)) => Some(Plus(a, b))
      case _ => None
  }

  function Mean(sum: real, n: nat): real {
    sum / (if n == 0 then 1 else n) as real
  }

  function CorpusScore(cases: seq<Case>, c: Scoring, bench: Bench): Option<Score> {
    match SumScores(cases, c, bench)
    case None => None
    case Some(s) =>
      var n := |cases|;
      Some(Score(Mean(s.packageRecall, n), Mean(s.mrr, n), Mean(s.recall, n), Mean(s.ndcg, n)))
  }

  function Fitness(s: Score): real {
    0.5 * s.mrr + 0.5 * s.ndcg
  }

  function FitnessOf(s: Option<Score>): Option<real> {
    if s.None? then None else Some(Fitness(s.value))
  }

  function CorpusObjective(cases: seq<Case>, bench: Bench): Objective {
    (c: Scoring) => FitnessOf(CorpusScore(cases, c, bench))
  }

  // ---- What the objective depends on ----------------------------------------

  /** The scores agree in everything but the package. */
  predicate SameButPackage(a: Score, b: Score) {
    a.mrr == b.mrr && a.recall == b.recall && a.ndcg == b.ndcg
  }

  predicate BothSameButPackage(a: Option<Score>, b: Option<Score>) {
    a.Some? == b.Some? && (a.Some? ==> SameButPackage(a.value, b.value))
  }

  lemma CaseIgnoresScoring(x: Case, c: Scoring, c': Scoring, bench: Bench)
    ensures BothSameButPackage(ScoreCase(x, c, bench), ScoreCase(x, c', bench))
  {}

  lemma PlusAgrees(a: Score, a': Score, b: Score, b': Score)
    requires SameButPackage(a, a') && SameButPackage(b, b')
    ensures SameButPackage(Plus(a, b), Plus(a', b'))
  {}

  lemma {:induction false} SumsIgnoreScoring(cases: seq<Case>, c: Scoring, c': Scoring, bench: Bench)
    ensures BothSameButPackage(SumScores(cases, c, bench), SumScores(cases, c', bench))
  {
    if cases != [] {
      CaseIgnoresScoring(cases[0], c, c', bench);
      SumsIgnoreScoring(cases[1..], c, c', bench);
      var a, b := ScoreCase(cases[0], c, bench), SumScores(cases[1..], c, bench);
      if a.Some? && b.Some? {
        PlusAgrees(a.value, ScoreCase(cases[0], c', bench).value, b.value, SumScores(cases[1..], c', bench).value);
      }
    }
  }

  /** Only the package recall of a corpus depends on the configuration. */
  lemma ScoresIgnoreScoring(cases: seq<Case>, c: Scoring, c': Scoring, bench: Bench)
    ensures BothSameButPackage(CorpusScore(cases, c, bench), CorpusScore(cases, c', bench))
  {
    SumsIgnoreScoring(cases, c, c', bench);
  }

  lemma EquallyFit(a: Option<Score>, b: Option<Score>)
    requires BothSameButPackage(a, b)
    ensures FitnessOf(a) == FitnessOf(b)
  {}

  /** So every configuration is equally fit. */
  lemma ObjectiveIsConstant(cases: seq<Case>, bench: Bench)
    ensures Constant(CorpusObjective(cases, bench))
  {
    forall c, c'
      ensures CorpusObjective(cases, bench)(c) == CorpusObjective(cases, bench)(c')
    {
      ScoresIgnoreScoring(cases, c, c', bench);
      EquallyFit(CorpusScore(cases, c, bench), CorpusScore(cases, c', bench));
    }
  }

  lemma {:induction false} SumsIgnoreScale(cases: seq<Case>, c: Scoring, factor: real, bench: Bench)
    requires factor > 0.0
    ensures SumScores(cases, Scale(c, factor), bench) == SumScores(cases, c, bench)
  {
    if cases != [] {
      CaseIgnoresScale(cases[0], c, factor, bench);
      SumsIgnoreScale(cases[1..], c, factor, bench);
    }
  }

  lemma CaseIgnoresScale(x: Case, c: Scoring, factor: real, bench: Bench)
    requires factor > 0.0
    ensures ScoreCase(x, Scale(c, factor), bench) == ScoreCase(x, c, bench)
  {
    var seeded := SeedAll(Boot(x.embedder), x.seeds);
    if seeded.Some? && x.ranking(seeded.value).Some? {
      var st := seeded.value;
      var near := Take(x.ranking(st).value, VECTOR_OVERSAMPLE);
      var req := Request(x.scope, bench.lens, x.budget, near, x.anchors, x.now);
      PackageIgnoresScale(st.db, st.index, req, c, bench.decay, x.walk(MergedItems(st.db, st.index, req)), factor);
    }
  }

  /** Normalising the weights changes no score at all, package recall included. */
  lemma NormalizingKeepsScores(cases: seq<Case>, c: Scoring, bench: Bench)
    ensures CorpusScore(cases, Normalized(c), bench) == CorpusScore(cases, c, bench)
  {
    if WeightTotal(c) > 0.0 {
      NormalizedIsScaled(c);
      SumsIgnoreScale(cases, c, 1.0 / WeightTotal(c), bench);
    }
  }

  // ---- Tuning on the corpus -------------------------------------------------

  /** Tuning fails exactly when scoring the start does. Otherwise it gives the
      start back, normalised, after a single pass, and reports no gain. */
  method TuneCorpus(cases: seq<Case>, start: Scoring, passes: nat, bench: Bench)
    returns (r: Option<TuneResult>, ghost rounds: nat)
    ensures r.None? <==> CorpusScore(cases, start, bench).None?
    ensures r.Some? ==>
              && r.value.start == start && r.value.best == Normalized(start)
              && r.value.startFitness == Fitness(CorpusScore(cases, start, bench).value)
              && r.value.bestFitness == r.value.startFitness
              && rounds == if passes == 0 then 0 else 1
  {
    ObjectiveIsConstant(cases, bench);
    ghost var best: Scoring;
    ghost var converged: bool;
    r, best, converged, rounds := Tune.Run(CorpusObjective(cases, bench), start, passes);
    assert r.None? ==> CorpusObjective(cases, bench)(start).None?;
  }
}
