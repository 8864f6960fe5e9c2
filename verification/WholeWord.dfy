/** Whole-word search in a UTF-8 string. A string is a sequence of characters;
    a byte offset that falls inside a character cannot be sliced at, and the
    search resumes one byte after a rejected occurrence. */
module WholeWord {
  import opened Utf8

  predicate OccursAt(haystack: string, needle: string, i: nat) {
    i + |needle| <= |haystack| && haystack[i..i + |needle|] == needle
  }

  predicate WholeWordAt(haystack: string, needle: string, isWord: char -> bool, i: nat) {
    && OccursAt(haystack, needle, i)
    && (i == 0 || !isWord(haystack[i - 1]))
    && (i + |needle| == |haystack| || !isWord(haystack[i + |needle|]))
  }

  ghost predicate HasWholeWord(haystack: string, needle: string, isWord: char -> bool) {
    exists i: nat :: WholeWordAt(haystack, needle, isWord, i)
  }

  /** The first occurrence at or after a character, or the length when there is
      none. */
  function Find(haystack: string, needle: string, from: nat): (i: nat)
    requires from <= |haystack| && needle != ""
    ensures from <= i <= |haystack|
    ensures i < |haystack| ==> OccursAt(haystack, needle, i)
    ensures forall j: nat :: from <= j < i ==> !OccursAt(haystack, needle, j)
    decreases |haystack| - from
  {
    if from == |haystack| || OccursAt(haystack, needle, from) then from else Find(haystack, needle, from + 1)
  }

  datatype Verdict = Present | Absent | Panics

  /** The first occurrence is not a whole word. */
  ghost predicate FirstRejected(haystack: string, needle: string, isWord: char -> bool)
    requires needle != ""
  {
    var i := Find(haystack, needle, 0);
    i < |haystack| && !WholeWordAt(haystack, needle, isWord, i)
  }

  function Search(haystack: string, needle: string, isWord: char -> bool, from: nat): (r: Verdict)
    requires from <= |haystack| && needle != ""
    decreases |haystack| - from
  {
    var i := Find(haystack, needle, from);
    if i == |haystack| then Absent
    else if WholeWordAt(haystack, needle, isWord, i) then Present
    else if Width(haystack[i]) > 1 then Panics
    else Search(haystack, needle, isWord, i + 1)
  }

  /** The search loop. It terminates; it panics exactly when the needle starts
      with a multi-byte character and its first occurrence is rejected; and
      otherwise it answers whether some occurrence is a whole word. */
  method ContainsWholeWord(haystack: string, needle: string, isWord: char -> bool) returns (r: Verdict)
    requires needle != ""
    ensures r == Search(haystack, needle, isWord, 0)
    ensures r == Panics <==> Width(needle[0]) > 1 && FirstRejected(haystack, needle, isWord)
    ensures r != Panics ==> (r == Present <==> HasWholeWord(haystack, needle, isWord))
  {
    var start := 0;
    while true
      invariant start <= |haystack|
      invariant forall j: nat :: j < start ==> !WholeWordAt(haystack, needle, isWord, j)
      invariant start > 0 ==> Width(needle[0]) == 1
      invariant Search(haystack, needle, isWord, start) == Search(haystack, needle, isWord, 0)
      decreases |haystack| - start
    {
      var i := Find(haystack, needle, start);
      if i == |haystack| {
        assert forall j: nat :: !WholeWordAt(haystack, needle, isWord, j);
        return Absent;
      }
      if WholeWordAt(haystack, needle, isWord, i) {
        return Present;
      }
      assert haystack[i] == haystack[i..i + |needle|][0] == needle[0];
      if Width(haystack[i]) > 1 {
        return Panics;
      }
      start := i + 1;
    }
  }

  /** The same as a lemma about the function. */
  lemma {:induction false} SearchDecides(haystack: string, needle: string, isWord: char -> bool, from: nat)
    requires from <= |haystack| && needle != ""
    requires forall j: nat :: j < from ==> !WholeWordAt(haystack, needle, isWord, j)
    ensures Search(haystack, needle, isWord, from) != Panics ==>
              (Search(haystack, needle, isWord, from) == Present <==> HasWholeWord(haystack, needle, isWord))
    ensures Width(needle[0]) == 1 ==> Search(haystack, needle, isWord, from) != Panics
    decreases |haystack| - from
  {
    var i := Find(haystack, needle, from);
    if i < |haystack| {
      assert haystack[i] == haystack[i..i + |needle|][0] == needle[0];
      if !WholeWordAt(haystack, needle, isWord, i) && Width(haystack[i]) == 1 {
        SearchDecides(haystack, needle, isWord, i + 1);
      }
    }
  }
}
