/** The in-memory index: a graph of vectors keyed by seq_id, and the side table
    that maps a seq_id to the memory it stands for. */
module VectorIndexes {
  import opened Domain
  import opened Sorting

  datatype Point = Point(memoryId: MemoryId, scope: Scope, kind: MemoryKind)

  datatype GraphPoint = GraphPoint(seqId: nat, vector: Vector)

  datatype Neighbour = Neighbour(seqId: nat, similarity: real)

  datatype IndexHit = IndexHit(memoryId: MemoryId, scope: Scope, kind: MemoryKind, similarity: real)

  /** Points are never taken out of the graph, only out of the side table. */
  datatype Index = Index(dim: nat, graph: seq<GraphPoint>, side: map<nat, Point>, nextSeq: nat)

  function EmptyIndex(dim: nat): Index {
    Index(dim, [], map[], 0)
  }

  function Max(a: nat, b: nat): nat {
    if a < b then b else a
  }

  /** None when the vector has the wrong dimension. */
  function InsertWithSeq(ix: Index, seqId: nat, vector: Vector, point: Point): Option<Index> {
    if |vector| != ix.dim then None
    else
      Some(Index(ix.dim, ix.graph + [GraphPoint(seqId, vector)], ix.side[seqId := point], Max(ix.nextSeq, seqId + 1)))
  }

  function Forget(ix: Index, id: MemoryId): Index {
    ix.(side := map s | s in ix.side && ix.side[s].memoryId != id :: ix.side[s])
  }

  /** The hits behind a list of graph neighbours; a neighbour without a side
      entry is stale and skipped. */
  function Lookup(side: map<nat, Point>, neighbours: seq<Neighbour>): seq<IndexHit> {
    if neighbours == [] then []
    else
      var n := neighbours[0];
      (if n.seqId in side
       then [IndexHit(side[n.seqId].memoryId, side[n.seqId].scope, side[n.seqId].kind, n.similarity)]
       else [])
      + Lookup(side, neighbours[1..])
  }

  predicate MostSimilarFirst(a: IndexHit, b: IndexHit) {
    a.similarity >= b.similarity
  }

  function Search(ix: Index, neighbours: seq<Neighbour>): seq<IndexHit> {
    Sort(Lookup(ix.side, neighbours), MostSimilarFirst)
  }

  /** Every hit stands for a side-table entry. */
  lemma {:induction false} LookupHits(side: map<nat, Point>, neighbours: seq<Neighbour>)
    ensures forall h :: h in Lookup(side, neighbours) ==>
              exists s :: s in side && side[s] == Point(h.memoryId, h.scope, h.kind)
  {
    if neighbours != [] {
      LookupHits(side, neighbours[1..]);
    }
  }

  class VectorIndex {
    const dim: nat
    var graph: seq<GraphPoint>
    var side: map<nat, Point>
    var nextSeq: nat

    function Snapshot(): Index
      reads this
    {
      Index(dim, graph, side, nextSeq)
    }

    constructor (dim: nat)
      ensures Snapshot() == EmptyIndex(dim)
    {
      this.dim := dim;
      graph, side, nextSeq := [], map[], 0;
    }

    /** A live insert claims the next free seq_id. */
    method Insert(vector: Vector, point: Point) returns (claimed: Option<nat>)
      modifies this
      ensures claimed == if |vector| == dim then Some(old(nextSeq)) else None
      ensures claimed.Some? ==> InsertWithSeq(old(Snapshot()), claimed.value, vector, point) == Some(Snapshot())
      ensures claimed.None? ==> Snapshot() == old(Snapshot())
    {
      if |vector| != dim {
        return None;
      }
      claimed := Some(nextSeq);
      nextSeq := nextSeq + 1;
      graph := graph + [GraphPoint(claimed.value, vector)];
      side := side[claimed.value := point];
    }

    /** Insert under a stored seq_id. `rivals(k)` is how many seq_ids live
        inserts on other threads claim just before the k-th atomic access. Their
        graph and side writes wait for the lock this call holds throughout. */
    method InsertAt(seqId: nat, vector: Vector, point: Point, rivals: nat -> nat) returns (ok: bool)
      modifies this
      ensures ok == (|vector| == dim)
      ensures !ok ==> Snapshot() == old(Snapshot())
      ensures ok ==> graph == old(graph) + [GraphPoint(seqId, vector)] && side == old(side)[seqId := point]
      ensures ok ==> nextSeq > seqId && nextSeq >= old(nextSeq)
      ensures ok && (forall k :: rivals(k) == 0) ==>
                InsertWithSeq(old(Snapshot()), seqId, vector, point) == Some(Snapshot())
    {
      ok := |vector| == dim;
      if !ok {
        return;
      }
      graph := graph + [GraphPoint(seqId, vector)];
      side := side[seqId := point];
      var k := 0;
      nextSeq := nextSeq + rivals(k);
      var current := nextSeq;
      while seqId >= current
        invariant old(nextSeq) <= current <= nextSeq
        invariant (forall j :: rivals(j) == 0) ==> current == nextSeq == old(nextSeq)
        invariant graph == old(graph) + [GraphPoint(seqId, vector)] && side == old(side)[seqId := point]
        decreases seqId - current
      {
        k := k + 1;
        nextSeq := nextSeq + rivals(k);
        if nextSeq == current {
          nextSeq := seqId + 1;
          break;
        } else {
          current := nextSeq;
        }
      }
    }

    method Clear()
      modifies this
      ensures Snapshot() == EmptyIndex(dim)
    {
      graph, side, nextSeq := [], map[], 0;
    }

    method ForgetMemory(id: MemoryId)
      modifies this
      ensures Snapshot() == Forget(old(Snapshot()), id)
    {
      side := map s | s in side && side[s].memoryId != id :: side[s];
    }
  }
}
