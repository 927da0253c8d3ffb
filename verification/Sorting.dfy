/** Array.prototype.sort, for comparators that are differences of integer ranks. */
module Sorting {
  function Insert<T>(rank: T -> int, x: T, s: seq<T>): seq<T> {
    if s == [] then [x]
    else if rank(x) <= rank(s[0]) then [x] + s
    else [s[0]] + Insert(rank, x, s[1..])
  }

  function SortBy<T>(rank: T -> int, s: seq<T>): seq<T> {
    if s == [] then [] else Insert(rank, s[0], SortBy(rank, s[1..]))
  }

  ghost predicate Ascending<T>(rank: T -> int, s: seq<T>) {
    forall i, j :: 0 <= i < j < |s| ==> rank(s[i]) <= rank(s[j])
  }

  lemma {:induction false} InsertAdds<T>(rank: T -> int, x: T, s: seq<T>)
    ensures multiset(Insert(rank, x, s)) == multiset(s) + multiset{x}
  {
    if s != [] && rank(x) > rank(s[0]) {
      InsertAdds(rank, x, s[1..]);
      assert s == [s[0]] + s[1..];
    }
  }

  lemma {:induction false} InsertBounds<T>(rank: T -> int, x: T, s: seq<T>, low: int)
    requires low <= rank(x) && forall i :: 0 <= i < |s| ==> low <= rank(s[i])
    ensures forall i :: 0 <= i < |Insert(rank, x, s)| ==> low <= rank(Insert(rank, x, s)[i])
  {
    if s != [] && rank(x) > rank(s[0]) {
      InsertBounds(rank, x, s[1..], low);
    }
  }

  lemma {:induction false} InsertSorts<T>(rank: T -> int, x: T, s: seq<T>)
    requires Ascending(rank, s)
    ensures Ascending(rank, Insert(rank, x, s))
  {
    if s != [] && rank(x) > rank(s[0]) {
      InsertSorts(rank, x, s[1..]);
      InsertBounds(rank, x, s[1..], rank(s[0]));
    }
  }

  lemma {:induction false} SortSorts<T>(rank: T -> int, s: seq<T>)
    ensures multiset(SortBy(rank, s)) == multiset(s)
    ensures Ascending(rank, SortBy(rank, s))
  {
    if s != [] {
      SortSorts(rank, s[1..]);
      InsertAdds(rank, s[0], SortBy(rank, s[1..]));
      InsertSorts(rank, s[0], SortBy(rank, s[1..]));
      assert s == [s[0]] + s[1..];
    }
  }

  lemma SortKeeps<T>(rank: T -> int, s: seq<T>)
    ensures |SortBy(rank, s)| == |s|
    ensures forall x :: x in SortBy(rank, s) <==> x in s
  {
    SortSorts(rank, s);
    assert |SortBy(rank, s)| == |multiset(SortBy(rank, s))| == |multiset(s)|;
    forall x ensures x in SortBy(rank, s) <==> x in s {
      assert x in SortBy(rank, s) <==> x in multiset(SortBy(rank, s));
    }
  }

  function Filter<T(!new)>(keep: T -> bool, s: seq<T>): (r: seq<T>)
    ensures forall x :: x in r <==> x in s && keep(x)
    ensures |r| <= |s|
  {
    if s == [] then []
    else if keep(s[0]) then [s[0]] + Filter(keep, s[1..])
    else Filter(keep, s[1..])
  }

  lemma {:induction false} FilterCount<T(!new)>(keep: T -> bool, s: seq<T>, x: T)
    ensures multiset(Filter(keep, s))[x] == if keep(x) then multiset(s)[x] else 0
  {
    if s != [] {
      FilterCount(keep, s[1..], x);
      assert s == [s[0]] + s[1..];
    }
  }
}
