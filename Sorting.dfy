/**
 * `Array.prototype.sort()` without a comparator on an array of distinct
 * strings: the elements in increasing order of their UTF-16 code units.
 */
module Sorting {
  import opened Strings

  /** Each element sorts strictly before every later one. */
  predicate StrictlySorted(s: seq<string>) {
    forall i, j :: 0 <= i < j < |s| ==> LexLess(s[i], s[j])
  }

  /** `x` placed before the first element it sorts before. */
  function Insert(s: seq<string>, x: string): seq<string>
    decreases |s|
  {
    if |s| == 0 then [x]
    else if LexLess(x, s[0]) then [x] + s
    else [s[0]] + Insert(s[1..], x)
  }

  /** The sorted array. */
  function Sort(s: seq<string>): seq<string>
    decreases |s|
  {
    if |s| == 0 then [] else Insert(Sort(s[..|s| - 1]), s[|s| - 1])
  }

  // ---------------------------------------------------------------------------
  // Properties.

  /** Inserting a new element into a sorted list keeps it sorted and adds just that element. */
  lemma {:induction false} InsertSorted(s: seq<string>, x: string)
    requires StrictlySorted(s) && x !in s
    ensures StrictlySorted(Insert(s, x))
    ensures |Insert(s, x)| == |s| + 1
    ensures forall y :: y in Insert(s, x) <==> y in s || y == x
    decreases |s|, 1
  {
    if |s| > 0 && !LexLess(x, s[0]) {
      InsertBehindHead(s, x);
    } else if |s| > 0 {
      forall j | 0 <= j < |s|
        ensures LexLess(x, s[j])
      {
        if j > 0 {
          LexLessTransitive(x, s[0], s[j]);
        }
      }
      ConsSorted(x, s);
    }
  }

  // `x` sorts after the head: the head stays first, then `x` goes into the rest.
  lemma {:induction false} InsertBehindHead(s: seq<string>, x: string)
    requires StrictlySorted(s) && x !in s && |s| > 0 && !LexLess(x, s[0])
    ensures StrictlySorted(Insert(s, x))
    ensures |Insert(s, x)| == |s| + 1
    ensures forall y :: y in Insert(s, x) <==> y in s || y == x
    decreases |s|, 0
  {
    assert forall y :: y in s <==> y == s[0] || y in s[1..] by {
      assert s == [s[0]] + s[1..];
    }
    InsertSorted(s[1..], x);
    var rest := Insert(s[1..], x);
    LexLessTotal(x, s[0]);
    forall j | 0 <= j < |rest|
      ensures LexLess(s[0], rest[j])
    {
      assert rest[j] in rest;
      if rest[j] != x {
        var k :| 1 <= k < |s| && s[k] == rest[j];
      }
    }
    ConsSorted(s[0], rest);
  }

  /** A head sorting before every element of a sorted list keeps it sorted. */
  lemma ConsSorted(x: string, s: seq<string>)
    requires StrictlySorted(s)
    requires forall j :: 0 <= j < |s| ==> LexLess(x, s[j])
    ensures StrictlySorted([x] + s)
  {
    var r := [x] + s;
    forall i, j | 0 <= i < j < |r|
      ensures LexLess(r[i], r[j])
    {
      assert r[j] == s[j - 1];
      if i > 0 {
        assert r[i] == s[i - 1];
      }
    }
  }

  /** Sorting a list without repeats gives a sorted list of the same elements. */
  lemma {:induction false} SortSorted(s: seq<string>)
    requires forall i, j :: 0 <= i < j < |s| ==> s[i] != s[j]
    ensures StrictlySorted(Sort(s))
    ensures |Sort(s)| == |s|
    ensures forall y :: y in Sort(s) <==> y in s
    decreases |s|
  {
    if |s| > 0 {
      var front := s[..|s| - 1];
      SortSorted(front);
      assert s == front + [s[|s| - 1]];
      InsertSorted(Sort(front), s[|s| - 1]);
    }
  }

  /** A sorted list without repeats is determined by its elements: sorting it changes nothing. */
  lemma {:induction false} SortOfSorted(s: seq<string>)
    requires StrictlySorted(s)
    ensures Sort(s) == s
    decreases |s|
  {
    if |s| > 0 {
      var front := s[..|s| - 1];
      SortOfSorted(front);
      InsertLast(front, s[|s| - 1]);
      assert s == front + [s[|s| - 1]];
    }
  }

  lemma {:induction false} InsertLast(s: seq<string>, x: string)
    requires forall i :: 0 <= i < |s| ==> LexLess(s[i], x)
    ensures Insert(s, x) == s + [x]
    decreases |s|
  {
    if |s| > 0 {
      LexLessAsymmetric(s[0], x);
      InsertLast(s[1..], x);
      assert [s[0]] + (s[1..] + [x]) == s + [x];
    }
  }
}
