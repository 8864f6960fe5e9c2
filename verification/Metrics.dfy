/** Ranked-retrieval metrics over any positive, strictly decreasing discount (the
    evaluation uses the reciprocal of a logarithm of the rank). */
module Metrics {
  import opened Sorting

  type Id = string
  type Discount = nat -> real

  ghost predicate Decreasing(d: Discount) {
    (forall i: nat :: d(i) > 0.0) && (forall i: nat, j: nat :: i < j ==> d(i) > d(j))
  }

  /** Sum of the discounts of the relevant ids, the first of which has rank
      `rank`. */
  function Gain(ranked: seq<Id>, relevant: set<Id>, d: Discount, rank: nat): real {
    if ranked == [] then 0.0
    else (if ranked[0] in relevant then d(rank) else 0.0) + Gain(ranked[1..], relevant, d, rank + 1)
  }

  function Ideal(n: nat, d: Discount, rank: nat): real {
    if n == 0 then 0.0 else d(rank) + Ideal(n - 1, d, rank + 1)
  }

  function Min(a: nat, b: nat): nat {
    if a < b then a else b
  }

  function Ndcg(ranked: seq<Id>, relevant: set<Id>, k: nat, d: Discount): real {
    if relevant == {} then 1.0
    else
      var ideal := Ideal(Min(|relevant|, k), d, 0);
      if ideal == 0.0 then 0.0 else Gain(Take(ranked, k), relevant, d, 0) / ideal
  }

  function Hits(ranked: seq<Id>, relevant: set<Id>): nat {
    if ranked == [] then 0 else (if ranked[0] in relevant then 1 else 0) + Hits(ranked[1..], relevant)
  }

  function Recall(ranked: seq<Id>, relevant: set<Id>, k: nat): real {
    if relevant == {} then 1.0 else Hits(Take(ranked, k), relevant) as real / |relevant| as real
  }

  function FirstHit(ranked: seq<Id>, relevant: set<Id>): nat {
    if ranked == [] || ranked[0] in relevant then 0 else 1 + FirstHit(ranked[1..], relevant)
  }

  /** One over the rank of the first relevant id. */
  function ReciprocalRank(ranked: seq<Id>, relevant: set<Id>): real {
    if FirstHit(ranked, relevant) < |ranked| then 1.0 / (FirstHit(ranked, relevant) + 1) as real else 0.0
  }

  // ---- Counting hits --------------------------------------------------------

  lemma {:induction false} HitsAtMostRelevant(ranked: seq<Id>, relevant: set<Id>)
    requires NoDuplicates(ranked)
    ensures Hits(ranked, relevant) <= |relevant| && Hits(ranked, relevant) <= |ranked|
    decreases |ranked|
  {
    if ranked != [] {
      if ranked[0] in relevant {
        HitsAtMostRelevant(ranked[1..], relevant - {ranked[0]});
        HitsIgnoreAbsent(ranked[1..], relevant, ranked[0]);
      } else {
        HitsAtMostRelevant(ranked[1..], relevant);
      }
    }
  }

  lemma {:induction false} HitsIgnoreAbsent(ranked: seq<Id>, relevant: set<Id>, id: Id)
    requires id !in ranked
    ensures Hits(ranked, relevant - {id}) == Hits(ranked, relevant)
  {
    if ranked != [] {
      HitsIgnoreAbsent(ranked[1..], relevant, id);
    }
  }

  // ---- Gain against the ideal -----------------------------------------------

  lemma {:induction false} IdealPositive(n: nat, d: Discount, rank: nat)
    requires Decreasing(d)
    ensures Ideal(n, d, rank) >= 0.0 && (n > 0 ==> Ideal(n, d, rank) > 0.0)
  {
    if n > 0 {
      IdealPositive(n - 1, d, rank + 1);
    }
  }

  lemma {:induction false} IdealLater(n: nat, d: Discount, rank: nat)
    requires Decreasing(d)
    ensures Ideal(n, d, rank + 1) <= Ideal(n, d, rank)
    ensures n > 0 ==> Ideal(n, d, rank + 1) < Ideal(n, d, rank)
  {
    if n > 0 {
      IdealLater(n - 1, d, rank + 1);
    }
  }

  lemma {:induction false} IdealGrows(n: nat, m: nat, d: Discount, rank: nat)
    requires Decreasing(d) && n <= m
    ensures Ideal(n, d, rank) <= Ideal(m, d, rank)
    ensures n < m ==> Ideal(n, d, rank) < Ideal(m, d, rank)
    decreases m
  {
    if n > 0 {
      IdealGrows(n - 1, m - 1, d, rank + 1);
    } else {
      IdealPositive(m, d, rank);
    }
  }

  /** Hits gain at most what as many hits at the top would, and exactly that only
      when they are at the top. */
  lemma {:induction false} GainBounded(ranked: seq<Id>, relevant: set<Id>, d: Discount, rank: nat)
    requires Decreasing(d)
    ensures 0.0 <= Gain(ranked, relevant, d, rank) <= Ideal(Hits(ranked, relevant), d, rank)
    ensures Gain(ranked, relevant, d, rank) == Ideal(Hits(ranked, relevant), d, rank) <==>
            forall i :: 0 <= i < Hits(ranked, relevant) && i < |ranked| ==> ranked[i] in relevant
  {
    if ranked != [] {
      GainBounded(ranked[1..], relevant, d, rank + 1);
      var h := Hits(ranked[1..], relevant);
      if ranked[0] in relevant {
        assert forall i :: 0 <= i < |ranked[1..]| ==> ranked[1..][i] == ranked[i + 1];
        if forall i :: 0 <= i < h && i < |ranked[1..]| ==> ranked[1..][i] in relevant {
          forall i | 0 <= i < h + 1 && i < |ranked|
            ensures ranked[i] in relevant
          {
            if i > 0 {
              assert ranked[1..][i - 1] in relevant;
            }
          }
        } else {
          var i :| 0 <= i < h && i < |ranked[1..]| && ranked[1..][i] !in relevant;
          assert ranked[i + 1] !in relevant;
        }
      } else {
        IdealLater(h, d, rank);
        HitsPositive(ranked[1..], relevant);
      }
    }
  }

  lemma {:induction false} HitsPositive(ranked: seq<Id>, relevant: set<Id>)
    ensures Hits(ranked, relevant) <= |ranked|
  {
    if ranked != [] {
      HitsPositive(ranked[1..], relevant);
    }
  }

  /** All of the first n are relevant exactly when the whole has at least n hits
      that come first. */
  lemma {:induction false} HitsOfRelevantPrefix(ranked: seq<Id>, relevant: set<Id>, n: nat)
    requires n <= |ranked| && forall i :: 0 <= i < n ==> ranked[i] in relevant
    ensures Hits(ranked, relevant) >= n
  {
    if n > 0 {
      assert forall i :: 0 <= i < n - 1 ==> ranked[1..][i] == ranked[i + 1];
      HitsOfRelevantPrefix(ranked[1..], relevant, n - 1);
    }
  }

  lemma DivisionBounds(a: real, b: real)
    requires 0.0 <= a <= b && b > 0.0
    ensures 0.0 <= a / b <= 1.0 && (a / b == 1.0 <==> a == b)
  {}

  /** Every relevant id that the first k positions have room for is at the top. */
  ghost predicate Perfect(ranked: seq<Id>, relevant: set<Id>, k: nat) {
    var n := Min(|relevant|, k);
    n <= |ranked| && forall i :: 0 <= i < n ==> ranked[i] in relevant
  }

  /** No more hits among the first k than there are places at the ideal top. */
  predicate NoExtraHits(ranked: seq<Id>, relevant: set<Id>, k: nat) {
    Hits(Take(ranked, k), relevant) <= Min(|relevant|, k)
  }

  /** Whatever repeats, as long as the first k hold no extra hits nDCG lies
      between zero and one, and is one exactly for a perfect ranking. */
  lemma NdcgBounded(ranked: seq<Id>, relevant: set<Id>, k: nat, d: Discount)
    requires Decreasing(d) && k > 0 && relevant != {} && NoExtraHits(ranked, relevant, k)
    ensures 0.0 <= Ndcg(ranked, relevant, k, d) <= 1.0
    ensures Ndcg(ranked, relevant, k, d) == 1.0 <==> Perfect(ranked, relevant, k)
  {
    var top := Take(ranked, k);
    var n := Min(|relevant|, k);
    var h := Hits(top, relevant);
    assert |relevant| > 0;
    GainBounded(top, relevant, d, 0);
    IdealGrows(h, n, d, 0);
    IdealPositive(n, d, 0);
    DivisionBounds(Gain(top, relevant, d, 0), Ideal(n, d, 0));
    assert forall i :: 0 <= i < |top| ==> top[i] == ranked[i];
    if Perfect(ranked, relevant, k) {
      HitsOfRelevantPrefix(top, relevant, n);
      assert h == n;
    }
    assert Gain(top, relevant, d, 0) == Ideal(n, d, 0) ==> h == n;
    HitsPositive(top, relevant);
  }

  /** For a duplicate-free ranking nDCG lies between zero and one, and is one
      exactly for a perfect ranking. */
  lemma NdcgRange(ranked: seq<Id>, relevant: set<Id>, k: nat, d: Discount)
    requires Decreasing(d) && NoDuplicates(ranked) && k > 0
    ensures 0.0 <= Ndcg(ranked, relevant, k, d) <= 1.0
    ensures relevant != {} ==> (Ndcg(ranked, relevant, k, d) == 1.0 <==> Perfect(ranked, relevant, k))
  {
    if relevant != {} {
      HitsAtMostRelevant(Take(ranked, k), relevant);
      NdcgBounded(ranked, relevant, k, d);
    }
  }

  // ---- Extra hits -----------------------------------------------------------

  lemma {:induction false} GainAtLeastHits(ranked: seq<Id>, relevant: set<Id>, d: Discount, rank: nat)
    requires forall i: nat :: d(i) >= 1.0
    ensures Gain(ranked, relevant, d, rank) >= Hits(ranked, relevant) as real
  {
    if ranked != [] {
      GainAtLeastHits(ranked[1..], relevant, d, rank + 1);
    }
  }

  lemma {:induction false} IdealAtMost(n: nat, d: Discount, rank: nat, most: real)
    requires forall i: nat :: d(i) <= most
    ensures Ideal(n, d, rank) <= n as real * most
  {
    if n > 0 {
      IdealAtMost(n - 1, d, rank + 1, most);
      assert n as real * most == (n - 1) as real * most + most;
    }
  }

  function FlatAt(n: nat, i: nat): real {
    1.0 + 1.0 / ((n + 1) as real * (i + 1) as real)
  }

  /** A discount that hardly falls. */
  function Flat(n: nat): Discount {
    (i: nat) => FlatAt(n, i)
  }

  lemma FlatOrder(n: nat, i: nat, j: nat)
    requires i <= j
    ensures 1.0 < FlatAt(n, j) <= FlatAt(n, i)
    ensures i < j ==> FlatAt(n, j) < FlatAt(n, i)
  {
    ProductGrows((n + 1) as real, (i + 1) as real, (j + 1) as real);
    ReciprocalFalls((n + 1) as real * (i + 1) as real, (n + 1) as real * (j + 1) as real);
  }

  lemma ProductGrows(a: real, x: real, y: real)
    requires a > 0.0 && 0.0 < x <= y
    ensures 0.0 < a * x <= a * y && (x < y ==> a * x < a * y)
  {}

  lemma ReciprocalFalls(x: real, y: real)
    requires 0.0 < x <= y
    ensures 0.0 < 1.0 / y <= 1.0 / x && (x < y ==> 1.0 / y < 1.0 / x)
  {}

  lemma FlatFalls(n: nat)
    ensures Decreasing(Flat(n))
    ensures forall i: nat :: 1.0 <= Flat(n)(i) <= FlatAt(n, 0)
  {
    forall i: nat
      ensures 1.0 <= Flat(n)(i) <= FlatAt(n, 0)
    {
      FlatOrder(n, 0, i);
    }
    forall i: nat, j: nat | i < j
      ensures Flat(n)(i) > Flat(n)(j)
    {
      FlatOrder(n, i, j);
    }
  }

  lemma FlatIdeal(n: nat)
    ensures n as real * FlatAt(n, 0) < (n + 1) as real
  {
    var x := (n + 1) as real;
    assert FlatAt(n, 0) == 1.0 + 1.0 / x;
    assert n as real * (1.0 / x) == n as real / x < 1.0;
  }

  lemma FlatGains(ranked: seq<Id>, relevant: set<Id>, n: nat)
    requires Hits(ranked, relevant) > n
    ensures Gain(ranked, relevant, Flat(n), 0) > Ideal(n, Flat(n), 0)
  {
    FlatFalls(n);
    GainAtLeastHits(ranked, relevant, Flat(n), 0);
    IdealAtMost(n, Flat(n), 0, FlatAt(n, 0));
    FlatIdeal(n);
    AtLeastReal(n + 1, Hits(ranked, relevant));
  }

  lemma AtLeastReal(a: nat, b: nat)
    requires a <= b
    ensures a as real <= b as real
  {}

  lemma NdcgIsRatio(ranked: seq<Id>, relevant: set<Id>, k: nat, d: Discount)
    requires Decreasing(d) && k > 0 && relevant != {}
    ensures var n := Min(|relevant|, k);
            && n > 0 && Ideal(n, d, 0) > 0.0
            && Ndcg(ranked, relevant, k, d) == Gain(Take(ranked, k), relevant, d, 0) / Ideal(n, d, 0)
  {
    assert |relevant| > 0;
    IdealPositive(Min(|relevant|, k), d, 0);
  }

  lemma ExtraHitsExceedOne(ranked: seq<Id>, relevant: set<Id>, k: nat)
    requires k > 0 && relevant != {} && !NoExtraHits(ranked, relevant, k)
    ensures var d := Flat(Min(|relevant|, k)); Decreasing(d) && Ndcg(ranked, relevant, k, d) > 1.0
  {
    var n := Min(|relevant|, k);
    FlatFalls(n);
    NdcgIsRatio(ranked, relevant, k, Flat(n));
    FlatGains(Take(ranked, k), relevant, n);
    DivisionAtLeastOne(Gain(Take(ranked, k), relevant, Flat(n), 0), Ideal(n, Flat(n), 0));
  }

  /** Exactly the rankings without extra hits stay within one under every
      discount: any other, a relevant id repeated too often, exceeds it under
      some. */
  lemma BoundedIffNoExtraHits(ranked: seq<Id>, relevant: set<Id>, k: nat)
    requires k > 0 && relevant != {}
    ensures (forall d :: Decreasing(d) ==> Ndcg(ranked, relevant, k, d) <= 1.0) <==> NoExtraHits(ranked, relevant, k)
  {
    if NoExtraHits(ranked, relevant, k) {
      forall d | Decreasing(d)
        ensures Ndcg(ranked, relevant, k, d) <= 1.0
      {
        NdcgBounded(ranked, relevant, k, d);
      }
    } else {
      ExtraHitsExceedOne(ranked, relevant, k);
    }
  }

  /** Recall lies between zero and one, and is one exactly when every relevant id
      is among the first k. */
  lemma RecallRange(ranked: seq<Id>, relevant: set<Id>, k: nat)
    requires NoDuplicates(ranked)
    ensures 0.0 <= Recall(ranked, relevant, k) <= 1.0
    ensures Recall(ranked, relevant, k) == 1.0 <==> forall id :: id in relevant ==> id in Take(ranked, k)
  {
    if relevant != {} {
      var top := Take(ranked, k);
      HitsAtMostRelevant(top, relevant);
      AllHits(top, relevant);
      DivisionBounds(Hits(top, relevant) as real, |relevant| as real);
    }
  }

  lemma {:induction false} AllHits(ranked: seq<Id>, relevant: set<Id>)
    requires NoDuplicates(ranked)
    ensures Hits(ranked, relevant) == |relevant| <==> forall id :: id in relevant ==> id in ranked
    decreases |ranked|
  {
    if ranked == [] {
      assert relevant != {} ==> exists id :: id in relevant;
    } else {
      var tail, rest := ranked[1..], relevant - {ranked[0]};
      HitsIgnoreAbsent(tail, relevant, ranked[0]);
      AllHits(tail, rest);
      assert |relevant| == |rest| + if ranked[0] in relevant then 1 else 0 by {
        assert relevant == if ranked[0] in relevant then rest + {ranked[0]} else rest;
      }
      assert Hits(ranked, relevant) == |relevant| <==> Hits(tail, rest) == |rest|;
      forall id | id in relevant
        ensures id in ranked <==> id == ranked[0] || id in tail
      {}
    }
  }

  lemma DivisionAtLeastOne(a: real, b: real)
    requires a >= b > 0.0
    ensures a / b >= 1.0 && (a / b == 1.0 <==> a == b)
  {}

  lemma {:induction false} GainOfPrefix(ranked: seq<Id>, relevant: set<Id>, d: Discount, rank: nat, n: nat)
    requires n <= |ranked| && forall i :: 0 <= i < n ==> ranked[i] in relevant
    ensures Gain(ranked, relevant, d, rank) == Ideal(n, d, rank) + Gain(ranked[n..], relevant, d, rank + n)
  {
    if n > 0 {
      assert forall i :: 0 <= i < n - 1 ==> ranked[1..][i] == ranked[i + 1];
      GainOfPrefix(ranked[1..], relevant, d, rank + 1, n - 1);
      assert ranked[1..][n - 1..] == ranked[n..];
    } else {
      assert ranked[0..] == ranked;
    }
  }

  lemma {:induction false} GainPositive(ranked: seq<Id>, relevant: set<Id>, d: Discount, rank: nat)
    requires Decreasing(d)
    ensures Gain(ranked, relevant, d, rank) >= 0.0
    ensures Gain(ranked, relevant, d, rank) > 0.0 <==> exists i :: 0 <= i < |ranked| && ranked[i] in relevant
  {
    if ranked != [] {
      GainPositive(ranked[1..], relevant, d, rank + 1);
      if i :| 0 < i < |ranked| && ranked[i] in relevant {
        assert ranked[1..][i - 1] in relevant;
      }
    }
  }

  /** Repeats break the bound: once the top has every relevant id there is room
      for, nDCG exceeds one exactly when the first k positions name a relevant id
      once more, and is one otherwise. */
  lemma RepeatExceedsOne(ranked: seq<Id>, relevant: set<Id>, k: nat, d: Discount)
    requires Decreasing(d) && relevant != {} && k > 0 && Perfect(ranked, relevant, k)
    ensures var n := Min(|relevant|, k);
            var again := exists i :: n <= i < |Take(ranked, k)| && ranked[i] in relevant;
            Ndcg(ranked, relevant, k, d) == 1.0 <==> !again
    ensures Ndcg(ranked, relevant, k, d) >= 1.0
  {
    var n, top := Min(|relevant|, k), Take(ranked, k);
    assert |relevant| > 0;
    var rest := top[n..];
    assert forall i :: 0 <= i < |top| ==> top[i] == ranked[i];
    GainOfPrefix(top, relevant, d, 0, n);
    GainPositive(rest, relevant, d, n);
    IdealPositive(n, d, 0);
    DivisionAtLeastOne(Gain(top, relevant, d, 0), Ideal(n, d, 0));
    assert forall i :: n <= i < |top| ==> rest[i - n] == ranked[i];
    assert forall i :: 0 <= i < |rest| ==> rest[i] == ranked[i + n];
  }

  // ---- What the metrics count -----------------------------------------------

  lemma {:induction false} FirstHitIsFirst(ranked: seq<Id>, relevant: set<Id>)
    ensures FirstHit(ranked, relevant) <= |ranked|
    ensures forall i :: 0 <= i < FirstHit(ranked, relevant) ==> ranked[i] !in relevant
    ensures FirstHit(ranked, relevant) < |ranked| ==> ranked[FirstHit(ranked, relevant)] in relevant
  {
    if ranked != [] && ranked[0] !in relevant {
      FirstHitIsFirst(ranked[1..], relevant);
    }
  }

  /** The reciprocal of the rank of the first relevant id, counted from one; zero
      when there is none. */
  lemma ReciprocalRankEffect(ranked: seq<Id>, relevant: set<Id>)
    ensures forall k :: 0 <= k < |ranked| && ranked[k] in relevant ==>
              (forall i :: 0 <= i < k ==> ranked[i] !in relevant) ==>
                ReciprocalRank(ranked, relevant) == 1.0 / (k + 1) as real
    ensures (forall i :: 0 <= i < |ranked| ==> ranked[i] !in relevant) ==> ReciprocalRank(ranked, relevant) == 0.0
  {
    FirstHitIsFirst(ranked, relevant);
  }

  lemma {:induction false} GainOfChange(ranked: seq<Id>, relevant: set<Id>, d: Discount, rank: nat, i: nat, id: Id)
    requires i < |ranked|
    ensures Gain(ranked[i := id], relevant, d, rank)
            == Gain(ranked, relevant, d, rank) - (if ranked[i] in relevant then d(rank + i) else 0.0)
               + (if id in relevant then d(rank + i) else 0.0)
  {
    if i == 0 {
      assert ranked[i := id][1..] == ranked[1..];
    } else {
      assert ranked[i := id][1..] == ranked[1..][i - 1 := id];
      GainOfChange(ranked[1..], relevant, d, rank + 1, i - 1, id);
    }
  }

  /** Ranking a relevant id before one that is not, instead of after it, raises
      nDCG. */
  lemma EarlierIsBetter(ranked: seq<Id>, relevant: set<Id>, k: nat, d: Discount, i: nat, j: nat)
    requires Decreasing(d) && i < j < |ranked| && i < k && ranked[i] !in relevant && ranked[j] in relevant
    ensures Ndcg(ranked[i := ranked[j]][j := ranked[i]], relevant, k, d) > Ndcg(ranked, relevant, k, d)
  {
    var swapped := ranked[i := ranked[j]][j := ranked[i]];
    NdcgIsRatio(ranked, relevant, k, d);
    NdcgIsRatio(swapped, relevant, k, d);
    var top := Take(ranked, k);
    var raised := top[i := ranked[j]];
    GainOfChange(top, relevant, d, 0, i, ranked[j]);
    if j < |top| {
      GainOfChange(raised, relevant, d, 0, j, ranked[i]);
      assert Take(swapped, k) == raised[j := ranked[i]];
    } else {
      assert Take(swapped, k) == raised;
    }
    LargerRatio(Gain(Take(swapped, k), relevant, d, 0), Gain(top, relevant, d, 0), Ideal(Min(|relevant|, k), d, 0));
  }

  lemma LargerRatio(a: real, b: real, c: real)
    requires a > b && c > 0.0
    ensures a / c > b / c
  {}

  /** The relevant ids among the first k. */
  function Found(ranked: seq<Id>, relevant: set<Id>, k: nat): set<Id> {
    set id | id in relevant && id in Take(ranked, k)
  }

  lemma {:induction false} HitsAreDistinct(ranked: seq<Id>, relevant: set<Id>)
    requires NoDuplicates(ranked)
    ensures Hits(ranked, relevant) == |set id | id in relevant && id in ranked|
    decreases |ranked|
  {
    if ranked == [] {
      assert (set id | id in relevant && id in ranked) == {};
    } else {
      var rest := ranked[1..];
      HitsAreDistinct(rest, relevant);
      var tail := set id | id in relevant && id in rest;
      assert ranked[0] !in rest && ranked[0] !in tail;
      assert forall id :: id in ranked <==> id == ranked[0] || id in rest;
      if ranked[0] in relevant {
        assert (set id | id in relevant && id in ranked) == tail + {ranked[0]};
      } else {
        assert (set id | id in relevant && id in ranked) == tail;
      }
    }
  }

  /** For a duplicate-free ranking, the share of the relevant ids that is found
      among the first k. */
  lemma RecallEffect(ranked: seq<Id>, relevant: set<Id>, k: nat)
    requires NoDuplicates(ranked)
    ensures Recall(ranked, relevant, k)
            == if relevant == {} then 1.0 else |Found(ranked, relevant, k)| as real / |relevant| as real
  {
    HitsAreDistinct(Take(ranked, k), relevant);
  }
}
