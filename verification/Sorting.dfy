/** Sorting by any order, as the library sorts do. */
module Sorting {
  import opened Prelude

  function InsertBy<T>(le: (T, T) -> bool, s: seq<T>, x: T): (r: seq<T>)
    ensures multiset(r) == multiset(s) + multiset{x} && |r| == |s| + 1
  {
    if s == [] || le(s[|s| - 1], x) then s + [x]
    else
      assert s == s[..|s| - 1] + [s[|s| - 1]];
      InsertBy(le, s[..|s| - 1], x) + [s[|s| - 1]]
  }

  /** A stable sort. */
  function SortBy<T>(le: (T, T) -> bool, s: seq<T>): (r: seq<T>)
    ensures multiset(r) == multiset(s) && |r| == |s|
  {
    if s == [] then []
    else
      assert s == s[..|s| - 1] + [s[|s| - 1]];
      InsertBy(le, SortBy(le, s[..|s| - 1]), s[|s| - 1])
  }

  ghost predicate TotalOrder<T(!new)>(le: (T, T) -> bool) {
    && (forall x, y :: le(x, y) || le(y, x))
    && (forall x, y, z :: le(x, y) && le(y, z) ==> le(x, z))
  }

  ghost predicate SortedBy<T>(le: (T, T) -> bool, s: seq<T>) {
    forall i, j :: 0 <= i < j < |s| ==> le(s[i], s[j])
  }

  lemma SameMembers<T>(s: seq<T>, t: seq<T>)
    requires multiset(s) == multiset(t)
    ensures forall x :: x in s <==> x in t
  {
    forall x: T
      ensures x in s <==> x in t
    {
      assert x in s <==> x in multiset(s);
      assert x in t <==> x in multiset(t);
    }
  }

  lemma {:induction false} InsertSorts<T(!new)>(le: (T, T) -> bool, s: seq<T>, x: T)
    requires TotalOrder(le) && SortedBy(le, s)
    ensures SortedBy(le, InsertBy(le, s, x))
    decreases |s|
  {
    if s != [] && !le(s[|s| - 1], x) {
      var init, last := s[..|s| - 1], s[|s| - 1];
      InsertSorts(le, init, x);
      var r := InsertBy(le, init, x);
      forall i | 0 <= i < |r|
        ensures le(r[i], last)
      {
        assert r[i] in multiset(r);
        assert r[i] == x || r[i] in init;
      }
    }
  }

  lemma {:induction false} SortSorts<T(!new)>(le: (T, T) -> bool, s: seq<T>)
    requires TotalOrder(le)
    ensures SortedBy(le, SortBy(le, s))
    decreases |s|
  {
    if s != [] {
      SortSorts(le, s[..|s| - 1]);
      InsertSorts(le, SortBy(le, s[..|s| - 1]), s[|s| - 1]);
    }
  }

  /** Sorting keeps distinct elements distinct. */
  lemma {:induction false} DistinctCounts<T(!new)>(s: seq<T>)
    ensures Distinct(s) <==> forall x :: multiset(s)[x] <= 1
    decreases |s|
  {
    if s != [] {
      var init, last := s[..|s| - 1], s[|s| - 1];
      assert s == init + [last];
      DistinctCounts(init);
      assert forall x :: multiset(s)[x] == multiset(init)[x] + if x == last then 1 else 0;
      assert last in init <==> multiset(init)[last] >= 1;
      if Distinct(s) {
        assert forall i :: 0 <= i < |init| ==> init[i] == s[i];
        assert last !in init;
      } else {
        var i, j :| 0 <= i < j < |s| && s[i] == s[j];
        if j < |init| {
          assert init[i] == init[j];
        } else {
          assert last == init[i];
        }
      }
    }
  }

  lemma SortKeepsDistinct<T(!new)>(le: (T, T) -> bool, s: seq<T>)
    requires Distinct(s)
    ensures Distinct(SortBy(le, s))
  {
    DistinctCounts(s);
    DistinctCounts(SortBy(le, s));
  }

  /** `binary_search_by`: where `x` is, or where it would go. */
  method BinarySearch<T(!new)>(le: (T, T) -> bool, s: seq<T>, x: T) returns (found: bool, at: nat)
    requires TotalOrder(le) && SortedBy(le, s)
    ensures at <= |s|
    ensures found ==> at < |s| && le(s[at], x) && le(x, s[at])
    ensures !found ==> (forall i :: 0 <= i < at ==> !le(x, s[i])) && forall i :: at <= i < |s| ==> !le(s[i], x)
  {
    var lo: nat, hi: nat := 0, |s|;
    while lo < hi
      invariant 0 <= lo <= hi <= |s|
      invariant forall i :: 0 <= i < lo ==> !le(x, s[i])
      invariant forall i :: hi <= i < |s| ==> !le(s[i], x)
    {
      var mid := lo + (hi - lo) / 2;
      if !le(x, s[mid]) {
        lo := mid + 1;
      } else if !le(s[mid], x) {
        hi := mid;
      } else {
        return true, mid;
      }
    }
    found, at := false, lo;
  }
}
