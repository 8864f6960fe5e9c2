/** What a vector search returns, in terms of the graph's ranking and the stored
    memories alone. */
module SearchEffects {
  import opened Domain
  import opened Sorting
  import opened VectorIndexes
  import opened Engines
  import opened IndexInvariant
  import opened MemorySearch

  /** One of the requested scopes or, when any was requested, an inherited one. */
  predicate Asked(scopes: Scope, s: string) {
    s in scopes || (scopes != [] && (s == "user:me" || s == "global"))
  }

  /** The neighbour is live, similar enough, of the requested kind, and in a scope
      asked for. */
  predicate Wanted(side: map<nat, Point>, n: Neighbour, p: Params) {
    && n.seqId in side && n.similarity >= p.minSimilarity
    && (p.kind.Some? ==> side[n.seqId].kind == p.kind.value)
    && (p.scopes.Some? ==> exists s :: s in side[n.seqId].scope && Asked(p.scopes.value, s))
  }

  function WantedIn(side: map<nat, Point>, p: Params): Neighbour -> bool {
    (n: Neighbour) => Wanted(side, n, p)
  }

  /** The first hits of the wanted neighbours, each with its stored memory. */
  ghost predicate FirstHits(st: Engine, wanted: seq<Neighbour>, limit: nat, found: seq<MemoryHit>) {
    && |found| == (if |wanted| < limit then |wanted| else limit)
    && forall i :: 0 <= i < |found| ==>
         && wanted[i].seqId in st.index.side && st.index.side[wanted[i].seqId].memoryId in st.db.memories
         && found[i] == MemoryHit(st.db.memories[st.index.side[wanted[i].seqId].memoryId], wanted[i].similarity)
  }

  function HitOf(side: map<nat, Point>, n: Neighbour): IndexHit
    requires n.seqId in side
  {
    IndexHit(side[n.seqId].memoryId, side[n.seqId].scope, side[n.seqId].kind, n.similarity)
  }

  lemma AskedIsExpanded(scopes: Scope, s: string)
    ensures s in ExpandInherited(scopes) <==> Asked(scopes, s)
  {}

  lemma MatchesIsWanted(side: map<nat, Point>, n: Neighbour, p: Params)
    requires n.seqId in side
    ensures Matches(Expand(p))(HitOf(side, n)) <==> Wanted(side, n, p)
  {
    if p.scopes.Some? {
      forall s
        ensures s in ExpandInherited(p.scopes.value) <==> Asked(p.scopes.value, s)
      {
        AskedIsExpanded(p.scopes.value, s);
      }
    }
  }

  /** The hits are those of the neighbours, one by one. */
  ghost predicate HitsOf(side: map<nat, Point>, hits: seq<IndexHit>, wanted: seq<Neighbour>) {
    && |hits| == |wanted|
    && forall i :: 0 <= i < |hits| ==> wanted[i].seqId in side && hits[i] == HitOf(side, wanted[i])
  }

  lemma HitsOfCons(side: map<nat, Point>, n: Neighbour, hits: seq<IndexHit>, wanted: seq<Neighbour>)
    requires n.seqId in side && HitsOf(side, hits, wanted)
    ensures HitsOf(side, [HitOf(side, n)] + hits, [n] + wanted)
  {}

  /** Filtering the hits of a ranking is filtering the ranking. */
  lemma {:induction false} FilterOfLookup(side: map<nat, Point>, ranking: seq<Neighbour>, p: Params)
    ensures HitsOf(side, Filter(Lookup(side, ranking), Matches(Expand(p))), Filter(ranking, WantedIn(side, p)))
  {
    if ranking != [] {
      var n, rest := ranking[0], Lookup(side, ranking[1..]);
      FilterOfLookup(side, ranking[1..], p);
      if n.seqId in side {
        MatchesIsWanted(side, n, p);
        assert Lookup(side, ranking) == [HitOf(side, n)] + rest && ([HitOf(side, n)] + rest)[1..] == rest;
        HitsOfCons(side, n, Filter(rest, Matches(Expand(p))), Filter(ranking[1..], WantedIn(side, p)));
        assert [] + Filter(rest, Matches(Expand(p))) == Filter(rest, Matches(Expand(p)));
      } else {
        assert Lookup(side, ranking) == rest;
      }
    }
  }

  /** What post-filtering keeps of the window. */
  lemma KeptAreWanted(st: Engine, near: seq<Neighbour>, p: Params)
    requires Descending(near)
    ensures var wanted := Filter(near, WantedIn(st.index.side, p));
            HitsOf(st.index.side, PostFilter(Search(st.index, near), Expand(p)), Take(wanted, p.limit))
  {
    LookupDescending(st.index.side, near);
    SortOfSorted(Lookup(st.index.side, near), MostSimilarFirst);
    FilterOfLookup(st.index.side, near, p);
  }

  lemma FetchedAreHits(st: Engine, kept: seq<IndexHit>, wanted: seq<Neighbour>, limit: nat)
    requires HitsOf(st.index.side, kept, Take(wanted, limit))
    requires forall h :: h in kept ==> StandsFor(st.db.memories, h)
    ensures FirstHits(st, wanted, limit, Fetch(st.db.memories, kept))
  {
    assert forall i :: 0 <= i < |kept| ==> kept[i] in kept;
    FetchFinds(st.db.memories, kept);
    assert forall i :: 0 <= i < |kept| ==> Take(wanted, limit)[i] == wanted[i];
  }

  /** A search looks at five times its limit of the ranking, or at 20 points if
      that is more, and returns the first wanted neighbours among them, as many as
      its limit allows, each with its stored memory and its similarity. */
  lemma SearchFinds(st: Engine, dimOf: string -> nat, ranking: seq<Neighbour>, p: Params)
    requires Safe(st, dimOf) && Descending(ranking)
    ensures var window := if 5 * p.limit > 20 then 5 * p.limit else 20;
            var near := if window < |ranking| then ranking[..window] else ranking;
            FirstHits(st, Filter(near, WantedIn(st.index.side, p)), p.limit, SearchMemory(st, ranking, p))
  {
    var window := if 5 * p.limit > 20 then 5 * p.limit else 20;
    var near := Take(ranking, window);
    if p.limit > 0 {
      assert near == Take(ranking, Oversample(p.limit));
      KeptAreWanted(st, near, p);
      KeptStand(st, near, Expand(p), dimOf);
      var kept := PostFilter(Search(st.index, near), Expand(p));
      FetchedAreHits(st, kept, Filter(near, WantedIn(st.index.side, p)), p.limit);
    }
  }

  /** When the ranking fits the window, or the window holds enough wanted
      neighbours, those are the first of the whole ranking. */
  lemma SearchFindsBest(st: Engine, dimOf: string -> nat, ranking: seq<Neighbour>, p: Params)
    requires Safe(st, dimOf) && Descending(ranking)
    requires var window := if 5 * p.limit > 20 then 5 * p.limit else 20;
             |ranking| <= window || |Filter(ranking[..window], WantedIn(st.index.side, p))| >= p.limit
    ensures FirstHits(st, Filter(ranking, WantedIn(st.index.side, p)), p.limit, SearchMemory(st, ranking, p))
  {
    var window := if 5 * p.limit > 20 then 5 * p.limit else 20;
    SearchFinds(st, dimOf, ranking, p);
    if |ranking| > window {
      assert ranking == ranking[..window] + ranking[window..];
      FilterConcat(ranking[..window], ranking[window..], WantedIn(st.index.side, p));
    }
  }
}
