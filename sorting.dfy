/**
  * A stable sort of a copy (`[...items].sort(compare)`), shared by the
  * store's `sortItems` and the cache's `sortPairsAsc`. `lt(a, b)` holds when
  * the comparator puts `a` strictly before `b`; elements it does not order
  * keep their input order.
  */
module Sorting {

  /** Inserts `x` after every element of `s` that is not strictly after it. */
  function Insert<T>(x: T, s: seq<T>, lt: (T, T) -> bool): (r: seq<T>)
    ensures multiset(r) == multiset(s) + multiset{x}
    ensures |r| == |s| + 1
  {
    if s == [] then [x]
    else if lt(x, s[0]) then [x] + s
    else
      assert s == [s[0]] + s[1..];
      [s[0]] + Insert(x, s[1..], lt)
  }

  function Sort<T>(s: seq<T>, lt: (T, T) -> bool): (r: seq<T>)
    ensures multiset(r) == multiset(s)
    ensures |r| == |s|
  {
    if s == [] then []
    else
      assert s == s[..|s| - 1] + [s[|s| - 1]];
      Insert(s[|s| - 1], Sort(s[..|s| - 1], lt), lt)
  }

  ghost predicate Asymmetric<T(!new)>(lt: (T, T) -> bool)
  {
    forall a, b :: lt(a, b) ==> !lt(b, a)
  }

  /** No element is strictly before its predecessor. */
  predicate SortedBy<T>(s: seq<T>, lt: (T, T) -> bool)
  {
    forall i :: 0 < i < |s| ==> !lt(s[i], s[i - 1])
  }

  lemma {:induction false} InsertSorted<T(!new)>(x: T, s: seq<T>, lt: (T, T) -> bool)
    requires Asymmetric(lt)
    requires SortedBy(s, lt)
    ensures SortedBy(Insert(x, s, lt), lt)
    ensures s != [] ==> Insert(x, s, lt)[0] in {x, s[0]}
  {
    if s != [] && !lt(x, s[0]) {
      InsertSorted(x, s[1..], lt);
    }
  }

  lemma {:induction false} SortSorted<T(!new)>(s: seq<T>, lt: (T, T) -> bool)
    requires Asymmetric(lt)
    ensures SortedBy(Sort(s, lt), lt)
  {
    if s != [] {
      SortSorted(s[..|s| - 1], lt);
      InsertSorted(s[|s| - 1], Sort(s[..|s| - 1], lt), lt);
    }
  }
}
