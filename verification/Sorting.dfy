/** A stable sort by a total preorder, the meaning of Rust's sort_by and of an
    SQL ORDER BY. */
module Sorting {

  ghost predicate TotalPreorder<T(!new)>(le: (T, T) -> bool) {
    && (forall x, y :: le(x, y) || le(y, x))
    && (forall x, y, z :: le(x, y) && le(y, z) ==> le(x, z))
  }

  ghost predicate SortedBy<T(!new)>(s: seq<T>, le: (T, T) -> bool) {
    forall i, j :: 0 <= i < j < |s| ==> le(s[i], s[j])
  }

  ghost predicate NoDuplicates<T>(s: seq<T>) {
    forall i, j :: 0 <= i < j < |s| ==> s[i] != s[j]
  }

  /** Places x before the first element it may precede, so that x stays ahead of
      every later element it ties with. */
  function Insert<T>(x: T, s: seq<T>, le: (T, T) -> bool): seq<T> {
    if s == [] then [x]
    else if le(x, s[0]) then [x] + s
    else [s[0]] + Insert(x, s[1..], le)
  }

  function Sort<T>(s: seq<T>, le: (T, T) -> bool): seq<T> {
    if s == [] then [] else Insert(s[0], Sort(s[1..], le), le)
  }

  function Filter<T>(s: seq<T>, keep: T -> bool): seq<T> {
    if s == [] then []
    else (if keep(s[0]) then [s[0]] else []) + Filter(s[1..], keep)
  }

  function Take<T>(s: seq<T>, n: nat): seq<T> {
    if n < |s| then s[..n] else s
  }

  function Map<T, U>(f: T -> U, s: seq<T>): seq<U> {
    if s == [] then [] else [f(s[0])] + Map(f, s[1..])
  }

  // ---- Insert and Sort -----------------------------------------------------

  lemma {:induction false} InsertElements<T>(x: T, s: seq<T>, le: (T, T) -> bool)
    ensures multiset(Insert(x, s, le)) == multiset{x} + multiset(s)
  {
    if s == [] || le(x, s[0]) {
    } else {
      InsertElements(x, s[1..], le);
      assert s == [s[0]] + s[1..];
    }
  }

  lemma {:induction false} SortElements<T>(s: seq<T>, le: (T, T) -> bool)
    ensures multiset(Sort(s, le)) == multiset(s)
    ensures |Sort(s, le)| == |s|
    ensures forall x :: x in Sort(s, le) <==> x in s
  {
    if s != [] {
      SortElements(s[1..], le);
      InsertElements(s[0], Sort(s[1..], le), le);
      assert s == [s[0]] + s[1..];
    }
    assert |multiset(Sort(s, le))| == |multiset(s)|;
    forall x
      ensures x in Sort(s, le) <==> x in s
    {
      assert x in multiset(Sort(s, le)) <==> x in multiset(s);
    }
  }

  lemma {:induction false} InsertKeepsSorted<T(!new)>(x: T, s: seq<T>, le: (T, T) -> bool)
    requires TotalPreorder(le) && SortedBy(s, le)
    ensures SortedBy(Insert(x, s, le), le)
  {
    if s == [] || le(x, s[0]) {
    } else {
      InsertKeepsSorted(x, s[1..], le);
      InsertElements(x, s[1..], le);
      var r := Insert(x, s[1..], le);
      forall y | y in r
        ensures le(s[0], y)
      {
        assert y in multiset(r);
        assert y == x || y in s[1..];
      }
    }
  }

  lemma {:induction false} SortSorts<T(!new)>(s: seq<T>, le: (T, T) -> bool)
    requires TotalPreorder(le)
    ensures SortedBy(Sort(s, le), le)
  {
    if s != [] {
      SortSorts(s[1..], le);
      InsertKeepsSorted(s[0], Sort(s[1..], le), le);
    }
  }

  /** A sorted sequence is left alone. */
  lemma {:induction false} SortOfSorted<T(!new)>(s: seq<T>, le: (T, T) -> bool)
    requires SortedBy(s, le)
    ensures Sort(s, le) == s
  {
    if s != [] {
      SortOfSorted(s[1..], le);
      assert |s| > 1 ==> le(s[0], s[1]);
    }
  }

  /** Two sorted arrangements of the same elements agree when no two distinct
      elements tie. */
  lemma {:induction false} SortedUnique<T(!new)>(a: seq<T>, b: seq<T>, le: (T, T) -> bool)
    requires SortedBy(a, le) && SortedBy(b, le)
    requires multiset(a) == multiset(b)
    requires forall x, y :: x in a && y in a && le(x, y) && le(y, x) ==> x == y
    ensures a == b
  {
    assert |multiset(a)| == |multiset(b)|;
    if a != [] {
      assert a[0] in multiset(b) && b[0] in multiset(a);
      assert a[0] == b[0];
      assert a == [a[0]] + a[1..] && b == [b[0]] + b[1..];
      assert multiset(a[1..]) == multiset(a) - multiset{a[0]};
      assert multiset(b[1..]) == multiset(b) - multiset{b[0]};
      SortedUnique(a[1..], b[1..], le);
    }
  }

  /** A map that preserves the order commutes with sorting. */
  lemma {:induction false} SortCommutesWithMap<T, U>(f: T -> U, s: seq<T>, le: (T, T) -> bool, le': (U, U) -> bool)
    requires forall x, y :: x in s && y in s ==> le'(f(x), f(y)) == le(x, y)
    ensures Sort(Map(f, s), le') == Map(f, Sort(s, le))
  {
    if s != [] {
      SortCommutesWithMap(f, s[1..], le, le');
      SortElements(s[1..], le);
      forall y | y in Sort(s[1..], le)
        ensures le'(f(s[0]), f(y)) == le(s[0], y)
      {
        assert y in multiset(Sort(s[1..], le));
        assert y in s[1..];
      }
      InsertCommutesWithMap(f, s[0], Sort(s[1..], le), le, le');
      assert Map(f, s)[1..] == Map(f, s[1..]);
    }
  }

  lemma {:induction false} InsertCommutesWithMap<T, U>(
    f: T -> U, x: T, s: seq<T>, le: (T, T) -> bool, le': (U, U) -> bool)
    requires forall y :: y in s ==> le'(f(x), f(y)) == le(x, y)
    ensures Insert(f(x), Map(f, s), le') == Map(f, Insert(x, s, le))
  {
    if s == [] {
    } else if le(x, s[0]) {
      assert ([x] + s)[1..] == s;
    } else {
      InsertCommutesWithMap(f, x, s[1..], le, le');
      assert ([s[0]] + Insert(x, s[1..], le))[1..] == Insert(x, s[1..], le);
      assert Map(f, s)[1..] == Map(f, s[1..]);
    }
  }

  // ---- Filter, Map, duplicates ---------------------------------------------

  lemma {:induction false} FilterElements<T>(s: seq<T>, keep: T -> bool)
    ensures forall x :: x in Filter(s, keep) <==> x in s && keep(x)
    ensures |Filter(s, keep)| <= |s|
  {
    if s != [] {
      FilterElements(s[1..], keep);
      assert s == [s[0]] + s[1..];
    }
  }

  lemma {:induction false} FilterKeepsNoDuplicates<T>(s: seq<T>, keep: T -> bool)
    requires NoDuplicates(s)
    ensures NoDuplicates(Filter(s, keep))
  {
    if s != [] {
      FilterKeepsNoDuplicates(s[1..], keep);
      FilterElements(s[1..], keep);
    }
  }

  lemma {:induction false} FilterConcat<T>(a: seq<T>, b: seq<T>, keep: T -> bool)
    ensures Filter(a + b, keep) == Filter(a, keep) + Filter(b, keep)
  {
    if a == [] {
      assert a + b == b;
    } else {
      FilterConcat(a[1..], b, keep);
      assert (a + b)[0] == a[0] && (a + b)[1..] == a[1..] + b;
      var head := if keep(a[0]) then [a[0]] else [];
      assert head + (Filter(a[1..], keep) + Filter(b, keep)) == (head + Filter(a[1..], keep)) + Filter(b, keep);
    }
  }

  lemma {:induction false} MapElements<T, U>(f: T -> U, s: seq<T>)
    ensures |Map(f, s)| == |s|
    ensures forall i :: 0 <= i < |s| ==> Map(f, s)[i] == f(s[i])
  {
    if s != [] {
      MapElements(f, s[1..]);
    }
  }

  lemma {:induction false} FilterCommutesWithMap<T, U>(f: T -> U, s: seq<T>, keep: T -> bool, keep': U -> bool)
    requires forall x :: x in s ==> keep'(f(x)) == keep(x)
    ensures Filter(Map(f, s), keep') == Map(f, Filter(s, keep))
  {
    if s != [] {
      FilterCommutesWithMap(f, s[1..], keep, keep');
      var rest := Filter(s[1..], keep);
      assert Map(f, s)[1..] == Map(f, s[1..]);
      assert s[0] in s;
      if keep(s[0]) {
        assert ([s[0]] + rest)[1..] == rest;
      } else {
        assert [] + rest == rest;
      }
    }
  }

  /** A sequence has no duplicates exactly when no element occurs twice in its
      multiset. */
  lemma {:induction false} NoDuplicatesMultiset<T>(s: seq<T>)
    ensures NoDuplicates(s) <==> forall x :: multiset(s)[x] <= 1
  {
    if s != [] {
      NoDuplicatesMultiset(s[1..]);
      assert s == [s[0]] + s[1..];
      var rest := s[1..];
      if NoDuplicates(s) {
        assert NoDuplicates(rest);
        forall x
          ensures multiset(s)[x] <= 1
        {
          assert multiset(rest)[x] <= 1;
          if x == s[0] {
            assert x !in rest;
          }
        }
      } else {
        if NoDuplicates(rest) {
          var i, j :| 0 <= i < j < |s| && s[i] == s[j];
          assert i == 0 && s[j] == rest[j - 1];
          assert s[0] in multiset(rest);
          assert multiset(s)[s[0]] >= 2;
        } else {
          var x :| multiset(rest)[x] > 1;
          assert multiset(s)[x] > 1;
        }
      }
    }
  }

  lemma SortKeepsNoDuplicates<T>(s: seq<T>, le: (T, T) -> bool)
    requires NoDuplicates(s)
    ensures NoDuplicates(Sort(s, le))
  {
    SortElements(s, le);
    NoDuplicatesMultiset(s);
    NoDuplicatesMultiset(Sort(s, le));
  }

  /** Keeping exactly the elements from p on yields that suffix. */
  lemma {:induction false} FilterSuffix<T>(s: seq<T>, p: nat, keep: T -> bool)
    requires p <= |s|
    requires forall i :: 0 <= i < |s| ==> (keep(s[i]) <==> p <= i)
    ensures Filter(s, keep) == s[p..]
  {
    if s != [] {
      if p == 0 {
        assert forall i :: 0 <= i < |s[1..]| ==> keep(s[1..][i]) by {
          forall i | 0 <= i < |s[1..]| ensures keep(s[1..][i]) { assert keep(s[i + 1]); }
        }
        FilterSuffix(s[1..], 0, keep);
        assert keep(s[0]);
      } else {
        forall i | 0 <= i < |s[1..]|
          ensures keep(s[1..][i]) <==> p - 1 <= i
        {
          assert keep(s[i + 1]) <==> p <= i + 1;
        }
        FilterSuffix(s[1..], p - 1, keep);
        assert !keep(s[0]);
      }
    }
  }

  lemma {:induction false} FilterKeepsSorted<T(!new)>(s: seq<T>, keep: T -> bool, le: (T, T) -> bool)
    requires SortedBy(s, le)
    ensures SortedBy(Filter(s, keep), le)
  {
    if s != [] {
      assert forall i :: 0 <= i < |s[1..]| ==> s[1..][i] == s[i + 1];
      FilterKeepsSorted(s[1..], keep, le);
      FilterElements(s[1..], keep);
      forall x | x in Filter(s[1..], keep)
        ensures le(s[0], x)
      {
        var i :| 0 <= i < |s[1..]| && s[1..][i] == x;
        assert s[i + 1] == x;
      }
    }
  }

  lemma SameMultiset<T>(a: seq<T>, b: seq<T>)
    requires NoDuplicates(a) && NoDuplicates(b)
    requires forall x :: x in a <==> x in b
    ensures multiset(a) == multiset(b)
  {
    NoDuplicatesMultiset(a);
    NoDuplicatesMultiset(b);
    forall x
      ensures multiset(a)[x] == multiset(b)[x]
    {
      assert x in multiset(a) <==> x in a;
      assert x in multiset(b) <==> x in b;
    }
  }

  /** What a filter keeps of two sorted arrangements of the same elements agrees
      when no two distinct kept elements tie. */
  lemma SortedFiltersAgree<T(!new)>(a: seq<T>, b: seq<T>, keep: T -> bool, le: (T, T) -> bool)
    requires SortedBy(a, le) && SortedBy(b, le) && NoDuplicates(a) && NoDuplicates(b)
    requires forall x :: x in a <==> x in b
    requires forall x, y :: x in a && y in a && keep(x) && keep(y) && le(x, y) && le(y, x) ==> x == y
    ensures Filter(a, keep) == Filter(b, keep)
  {
    FilterKeepsSorted(a, keep, le);
    FilterKeepsSorted(b, keep, le);
    FilterKeepsNoDuplicates(a, keep);
    FilterKeepsNoDuplicates(b, keep);
    FilterElements(a, keep);
    FilterElements(b, keep);
    SameMultiset(Filter(a, keep), Filter(b, keep));
    SortedUnique(Filter(a, keep), Filter(b, keep), le);
  }
}
