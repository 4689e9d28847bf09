/** Ordered insertion, the way the model realises an SQL `ORDER BY` while the rows of a query
    are collected one by one. */
module Sorting {
  import opened Collections

  /** `le` compares every two values and chains: a total preorder. */
  ghost predicate TotalPreorder<T(!new)>(le: (T, T) -> bool) {
    (forall a, b :: le(a, b) || le(b, a))
    && (forall a, b, c :: le(a, b) && le(b, c) ==> le(a, c))
  }

  predicate SortedBy<T>(s: seq<T>, le: (T, T) -> bool) {
    forall i, j :: 0 <= i < j < |s| ==> le(s[i], s[j])
  }

  /** `x` placed before the first element it is `le` to. */
  function InsertBy<T>(x: T, s: seq<T>, le: (T, T) -> bool): (r: seq<T>)
    ensures |r| == |s| + 1
    ensures multiset(r) == multiset(s) + multiset{x}
  {
    if s == [] then [x]
    else if le(x, s[0]) then [x] + s
    else
      var rest := InsertBy(x, s[1..], le);
      assert s == [s[0]] + s[1..];
      [s[0]] + rest
  }

  lemma InsertByMembers<T>(x: T, s: seq<T>, le: (T, T) -> bool)
    ensures forall y :: y in InsertBy(x, s, le) <==> y == x || y in s
  {
    var r := InsertBy(x, s, le);
    forall y ensures y in r <==> y == x || y in s {
      assert y in r <==> y in multiset(r);
      assert y in s <==> y in multiset(s);
    }
  }

  /** Insertion keeps a sorted sequence sorted. */
  lemma {:induction false} InsertBySorted<T(!new)>(x: T, s: seq<T>, le: (T, T) -> bool)
    requires TotalPreorder(le) && SortedBy(s, le)
    ensures SortedBy(InsertBy(x, s, le), le)
  {
    if s != [] && !le(x, s[0]) {
      InsertBySorted(x, s[1..], le);
      var rest := InsertBy(x, s[1..], le);
      assert le(s[0], x);
      forall j | 0 <= j < |rest| ensures le(s[0], rest[j]) {
        assert rest[j] in multiset(rest);
        assert rest[j] == x || rest[j] in s[1..];
      }
    }
  }

  /** Insertion sort: every element inserted in turn, the last one last. */
  function SortBy<T>(s: seq<T>, le: (T, T) -> bool): (r: seq<T>)
    ensures multiset(r) == multiset(s)
  {
    if s == [] then []
    else
      assert s == s[..|s| - 1] + [s[|s| - 1]];
      InsertBy(s[|s| - 1], SortBy(s[..|s| - 1], le), le)
  }

  lemma {:induction false} SortBySorted<T(!new)>(s: seq<T>, le: (T, T) -> bool)
    requires TotalPreorder(le)
    ensures SortedBy(SortBy(s, le), le)
  {
    if s != [] {
      SortBySorted(s[..|s| - 1], le);
      InsertBySorted(s[|s| - 1], SortBy(s[..|s| - 1], le), le);
    }
  }

  /** Inserting a new element keeps a repeat-free sequence repeat-free. */
  lemma {:induction false} InsertByDistinct<T>(x: T, s: seq<T>, le: (T, T) -> bool)
    requires Distinct(s) && x !in s
    ensures Distinct(InsertBy(x, s, le))
  {
    if s != [] && !le(x, s[0]) {
      InsertByDistinct(x, s[1..], le);
      InsertByMembers(x, s[1..], le);
      assert s[0] !in s[1..];
    }
  }

  lemma {:induction false} SortByDistinct<T>(s: seq<T>, le: (T, T) -> bool)
    requires Distinct(s)
    ensures Distinct(SortBy(s, le))
  {
    if s != [] {
      var init := s[..|s| - 1];
      SortByDistinct(init, le);
      assert s[|s| - 1] !in multiset(SortBy(init, le)) by {
        assert s[|s| - 1] !in init;
      }
      InsertByDistinct(s[|s| - 1], SortBy(init, le), le);
    }
  }
}
