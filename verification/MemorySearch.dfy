/** Vector search: over-fetch from the graph, drop stale points, post-filter. The
    graph's ranking is taken as exact. */
module MemorySearch {
  import opened Domain
  import opened Sorting
  import opened VectorIndexes
  import opened Engines
  import opened IndexInvariant

  datatype Params = Params(scopes: Option<Scope>, kind: Option<MemoryKind>, minSimilarity: real, limit: nat)

  datatype MemoryHit = MemoryHit(memory: Memory, similarity: real)

  function Matches(p: Params): IndexHit -> bool {
    (h: IndexHit) =>
      && h.similarity >= p.minSimilarity
      && (p.kind.None? || h.kind == p.kind.value)
      && (p.scopes.None? || Intersects(p.scopes.value, h.scope))
  }

  function PostFilter(hits: seq<IndexHit>, p: Params): seq<IndexHit> {
    Take(Filter(hits, Matches(p)), p.limit)
  }

  function Oversample(limit: nat): nat {
    Max(limit * 5, 20)
  }

  function Fetch(memories: map<MemoryId, Memory>, hits: seq<IndexHit>): seq<MemoryHit> {
    if hits == [] then []
    else
      (if hits[0].memoryId in memories then [MemoryHit(memories[hits[0].memoryId], hits[0].similarity)] else [])
      + Fetch(memories, hits[1..])
  }

  /** The caller's scopes are expanded; the graph yields the best of its ranking,
      stale points included. */
  function Expand(p: Params): Params {
    p.(scopes := match p.scopes case None => None case Some(s) => Some(ExpandInherited(s)))
  }

  function SearchMemory(st: Engine, ranking: seq<Neighbour>, p: Params): seq<MemoryHit> {
    if p.limit == 0 then []
    else Fetch(st.db.memories, PostFilter(Search(st.index, Take(ranking, Oversample(p.limit))), Expand(p)))
  }

  /** The reference: filter every live point of the ranking, keep the best. */
  function BruteForce(ix: Index, ranking: seq<Neighbour>, p: Params): seq<IndexHit> {
    Take(Filter(Lookup(ix.side, ranking), Matches(p)), p.limit)
  }

  ghost predicate Descending(ranking: seq<Neighbour>) {
    forall i, j :: 0 <= i < j < |ranking| ==> ranking[i].similarity >= ranking[j].similarity
  }

  lemma {:induction false} LookupConcat(side: map<nat, Point>, a: seq<Neighbour>, b: seq<Neighbour>)
    ensures Lookup(side, a + b) == Lookup(side, a) + Lookup(side, b)
  {
    if a == [] {
      assert a + b == b;
    } else {
      LookupConcat(side, a[1..], b);
      assert (a + b)[1..] == a[1..] + b;
    }
  }

  lemma {:induction false} LookupDescending(side: map<nat, Point>, ranking: seq<Neighbour>)
    requires Descending(ranking)
    ensures SortedBy(Lookup(side, ranking), MostSimilarFirst)
    ensures forall h :: h in Lookup(side, ranking) ==>
              exists n :: n in ranking && n.seqId in side && h.similarity == n.similarity
                          && side[n.seqId] == Point(h.memoryId, h.scope, h.kind)
  {
    if ranking != [] {
      LookupDescending(side, ranking[1..]);
      var rest := Lookup(side, ranking[1..]);
      forall h | h in rest
        ensures h.similarity <= ranking[0].similarity
      {
        var n :| n in ranking[1..] && h.similarity == n.similarity;
        var i :| 0 <= i < |ranking[1..]| && ranking[1..][i] == n;
        assert ranking[i + 1] == n;
      }
    }
  }

  /** The over-fetched, post-filtered hits are the brute-force ones exactly when
      the window holds enough matches or no match lies beyond it; stale points in
      the window do no other harm. */
  lemma OverFetchIsBruteForce(ix: Index, ranking: seq<Neighbour>, window: nat, p: Params)
    requires Descending(ranking)
    ensures PostFilter(Search(ix, Take(ranking, window)), p) == BruteForce(ix, ranking, p) <==>
            || |Filter(Lookup(ix.side, Take(ranking, window)), Matches(p))| >= p.limit
            || Filter(Lookup(ix.side, ranking[|Take(ranking, window)|..]), Matches(p)) == []
  {
    var near := Take(ranking, window);
    var far := ranking[|near|..];
    assert ranking == near + far;
    LookupDescending(ix.side, near);
    SortOfSorted(Lookup(ix.side, near), MostSimilarFirst);
    LookupConcat(ix.side, near, far);
    FilterConcat(Lookup(ix.side, near), Lookup(ix.side, far), Matches(p));
    var found := Filter(Lookup(ix.side, near), Matches(p));
    var beyond := Filter(Lookup(ix.side, far), Matches(p));
    assert Filter(Lookup(ix.side, ranking), Matches(p)) == found + beyond;
    if |found| >= p.limit {
      assert (found + beyond)[..p.limit] == found[..p.limit];
    } else if beyond != [] {
      assert |Take(found + beyond, p.limit)| > |found|;
    }
  }

  /** In particular when the window covers the whole ranking. */
  lemma WholeRankingIsBruteForce(ix: Index, ranking: seq<Neighbour>, window: nat, p: Params)
    requires Descending(ranking) && |ranking| <= window
    ensures PostFilter(Search(ix, Take(ranking, window)), p) == BruteForce(ix, ranking, p)
  {
    assert ranking[|Take(ranking, window)|..] == [];
    OverFetchIsBruteForce(ix, ranking, window, p);
  }

  /** What brute force means: every returned hit is a live match, in descending
      similarity, and a live match that is left out loses to all of a full page. */
  lemma BruteForceIsBest(ix: Index, ranking: seq<Neighbour>, p: Params, n: Neighbour)
    requires Descending(ranking) && n in ranking && n.seqId in ix.side
    ensures var page := BruteForce(ix, ranking, p);
            var point := ix.side[n.seqId];
            var h := IndexHit(point.memoryId, point.scope, point.kind, n.similarity);
            && |page| <= p.limit && SortedBy(page, MostSimilarFirst)
            && (forall x :: x in page ==> Matches(p)(x))
            && (Matches(p)(h) ==>
                  h in page || (|page| == p.limit && forall x :: x in page ==> x.similarity >= h.similarity))
  {
    var hits := Lookup(ix.side, ranking);
    var matching := Filter(hits, Matches(p));
    LookupDescending(ix.side, ranking);
    FilterElements(hits, Matches(p));
    FilterKeepsSorted(hits, Matches(p), MostSimilarFirst);
    LookupContains(ix.side, ranking, n);
    var point := ix.side[n.seqId];
    var h := IndexHit(point.memoryId, point.scope, point.kind, n.similarity);
    var page := BruteForce(ix, ranking, p);
    if Matches(p)(h) && h !in page {
      var i :| 0 <= i < |matching| && matching[i] == h;
      assert p.limit <= i;
      forall x | x in page
        ensures x.similarity >= h.similarity
      {
        var j :| 0 <= j < |page| && page[j] == x;
        assert matching[j] == x && MostSimilarFirst(matching[j], matching[i]);
      }
    }
  }

  lemma {:induction false} LookupContains(side: map<nat, Point>, ranking: seq<Neighbour>, n: Neighbour)
    requires n in ranking && n.seqId in side
    ensures IndexHit(side[n.seqId].memoryId, side[n.seqId].scope, side[n.seqId].kind, n.similarity)
            in Lookup(side, ranking)
  {
    if ranking[0] != n {
      LookupContains(side, ranking[1..], n);
    }
  }

  /** The hit stands for a stored, active memory with its scope and kind. */
  predicate StandsFor(memories: map<MemoryId, Memory>, h: IndexHit) {
    h.memoryId in memories && var m := memories[h.memoryId];
    m.id == h.memoryId && Active(m) && m.scope == h.scope && m.kind == h.kind
  }

  lemma {:induction false} FetchFinds(memories: map<MemoryId, Memory>, hits: seq<IndexHit>)
    requires forall i :: 0 <= i < |hits| ==> StandsFor(memories, hits[i])
    ensures |Fetch(memories, hits)| == |hits|
    ensures forall i :: 0 <= i < |hits| ==>
              hits[i].memoryId in memories
              && Fetch(memories, hits)[i] == MemoryHit(memories[hits[i].memoryId], hits[i].similarity)
  {
    if hits != [] {
      assert forall i :: 0 <= i < |hits[1..]| ==> hits[1..][i] == hits[i + 1];
      FetchFinds(memories, hits[1..]);
      var rest := Fetch(memories, hits[1..]);
      assert StandsFor(memories, hits[0]);
      assert Fetch(memories, hits) == [MemoryHit(memories[hits[0].memoryId], hits[0].similarity)] + rest;
    }
  }

  /** What post-filtering keeps of the window are live matches. */
  lemma KeptStand(st: Engine, near: seq<Neighbour>, p: Params, dimOf: string -> nat)
    requires Safe(st, dimOf) && Descending(near)
    ensures var kept := PostFilter(Search(st.index, near), p);
            |kept| <= p.limit && forall h :: h in kept ==> Matches(p)(h) && StandsFor(st.db.memories, h)
  {
    var hits := Lookup(st.index.side, near);
    LookupDescending(st.index.side, near);
    SortOfSorted(hits, MostSimilarFirst);
    FilterElements(hits, Matches(p));
    var kept := PostFilter(Search(st.index, near), p);
    forall h | h in kept
      ensures Matches(p)(h) && StandsFor(st.db.memories, h)
    {
      assert h in Filter(hits, Matches(p));
      var n :| n in near && n.seqId in st.index.side && st.index.side[n.seqId] == Point(h.memoryId, h.scope, h.kind);
    }
  }

  /** With the index invariant, search returns one active memory for every hit
      kept, in an expanded scope and of the requested kind. */
  lemma SearchIsSound(st: Engine, dimOf: string -> nat, ranking: seq<Neighbour>, p: Params)
    requires Safe(st, dimOf) && Descending(ranking)
    ensures var found := SearchMemory(st, ranking, p);
            && |found| <= p.limit
            && (p.limit > 0 ==>
                  |found| == |PostFilter(Search(st.index, Take(ranking, Oversample(p.limit))), Expand(p))|)
            && forall x :: x in found ==>
                 && Active(x.memory) && x.similarity >= p.minSimilarity
                 && (p.kind.Some? ==> x.memory.kind == p.kind.value)
                 && (p.scopes.Some? ==> Intersects(ExpandInherited(p.scopes.value), x.memory.scope))
  {
    if p.limit > 0 {
      var near := Take(ranking, Oversample(p.limit));
      KeptStand(st, near, Expand(p), dimOf);
      var kept := PostFilter(Search(st.index, near), Expand(p));
      FetchFinds(st.db.memories, kept);
      forall x | x in SearchMemory(st, ranking, p)
        ensures && Active(x.memory) && x.similarity >= p.minSimilarity
                && (p.kind.Some? ==> x.memory.kind == p.kind.value)
                && (p.scopes.Some? ==> Intersects(ExpandInherited(p.scopes.value), x.memory.scope))
      {
        var i :| 0 <= i < |kept| && Fetch(st.db.memories, kept)[i] == x;
        assert Matches(Expand(p))(kept[i]) && StandsFor(st.db.memories, kept[i]);
      }
    }
  }
}
