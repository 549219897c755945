/**
 * Ordering a sequence by an integer projection, as `OrderBy(key)` does. Elements
 * with equal keys keep their input order. Descending order is ascending order on
 * the negated key, which keeps ties in input order as `OrderByDescending` does.
 */
module Sorting {

  ghost predicate SortedBy<T>(s: seq<T>, rank: T -> int) {
    forall i, j :: 0 <= i < j < |s| ==> rank(s[i]) <= rank(s[j])
  }

  /** Places `x` after every element ranked at most as high as `x`. */
  function Insert<T>(x: T, s: seq<T>, rank: T -> int): (r: seq<T>)
    ensures multiset(r) == multiset(s) + multiset{x}
    ensures SortedBy(s, rank) ==> SortedBy(r, rank)
  {
    if s == [] then [x]
    else if rank(x) < rank(s[0]) then
      InsertFront(x, s, rank);
      [x] + s
    else
      var rest := Insert(x, s[1..], rank);
      InsertBehind(x, s, rest, rank);
      [s[0]] + rest
  }

  /** An element ranked below the first of a sorted sequence can go in front. */
  lemma InsertFront<T>(x: T, s: seq<T>, rank: T -> int)
    requires s != [] && rank(x) < rank(s[0])
    ensures SortedBy(s, rank) ==> SortedBy([x] + s, rank)
  {
    if SortedBy(s, rank) {
      ConsSorted(x, s, rank);
    }
  }

  /** The first element stays in front of the rest with `x` inserted, when `x` ranks at least as high. */
  lemma InsertBehind<T>(x: T, s: seq<T>, rest: seq<T>, rank: T -> int)
    requires s != [] && rank(s[0]) <= rank(x)
    requires multiset(rest) == multiset(s[1..]) + multiset{x}
    requires SortedBy(s[1..], rank) ==> SortedBy(rest, rank)
    ensures multiset([s[0]] + rest) == multiset(s) + multiset{x}
    ensures SortedBy(s, rank) ==> SortedBy([s[0]] + rest, rank)
  {
    assert s == [s[0]] + s[1..];
    if SortedBy(s, rank) {
      HeadBelowRest(x, s, rest, rank);
      ConsSorted(s[0], rest, rank);
    }
  }

  /** An element ranked at most as high as every element of a sorted sequence can go in front. */
  lemma ConsSorted<T>(y: T, s: seq<T>, rank: T -> int)
    requires SortedBy(s, rank) && forall j :: 0 <= j < |s| ==> rank(y) <= rank(s[j])
    ensures SortedBy([y] + s, rank)
  {
    forall i, j | 0 <= i < j < |s| + 1 ensures rank(([y] + s)[i]) <= rank(([y] + s)[j]) {
      assert ([y] + s)[j] == s[j - 1];
      if i > 0 { assert ([y] + s)[i] == s[i - 1]; }
    }
  }

  /** Every element of the rest with `x` inserted ranks at least as high as the first of `s`. */
  lemma HeadBelowRest<T>(x: T, s: seq<T>, rest: seq<T>, rank: T -> int)
    requires s != [] && rank(s[0]) <= rank(x) && SortedBy(s, rank)
    requires multiset(rest) == multiset(s[1..]) + multiset{x}
    ensures forall j :: 0 <= j < |rest| ==> rank(s[0]) <= rank(rest[j])
  {
    forall j | 0 <= j < |rest| ensures rank(s[0]) <= rank(rest[j]) {
      assert rest[j] in multiset(rest);
      if rest[j] != x {
        assert rest[j] in multiset(s[1..]);
        var k :| 0 <= k < |s[1..]| && s[1..][k] == rest[j];
        assert s[k + 1] == rest[j];
      }
    }
  }

  /** The stable ascending sort of `s` by `rank`. */
  function SortBy<T>(s: seq<T>, rank: T -> int): (r: seq<T>)
    ensures multiset(r) == multiset(s)
    ensures SortedBy(r, rank)
  {
    if s == [] then []
    else
      assert s == s[..|s| - 1] + [s[|s| - 1]];
      Insert(s[|s| - 1], SortBy(s[..|s| - 1], rank), rank)
  }
}
