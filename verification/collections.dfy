/** Sequence operations shared by the front-end modules: `Array.prototype.filter` and the
    facts about it the reducers rely on. */
module Collections {
  import opened Wrappers

  /** `xs.filter(keep)`: the elements `keep` accepts, in their order. */
  function Filter<T(!new)>(xs: seq<T>, keep: T -> bool): (r: seq<T>)
    ensures |r| <= |xs|
    ensures forall x :: x in r <==> x in xs && keep(x)
    ensures forall i :: 0 <= i < |r| ==> keep(r[i])
  {
    if xs == [] then []
    else (if keep(xs[0]) then [xs[0]] else []) + Filter(xs[1..], keep)
  }

  /** Filtering distributes over concatenation. */
  lemma {:induction false} FilterAppend<T(!new)>(xs: seq<T>, ys: seq<T>, keep: T -> bool)
    ensures Filter(xs + ys, keep) == Filter(xs, keep) + Filter(ys, keep)
  {
    if xs == [] {
      assert xs + ys == ys;
    } else {
      assert (xs + ys)[1..] == xs[1..] + ys;
      FilterAppend(xs[1..], ys, keep);
    }
  }

  /** One more element: the filter of the longer prefix gains it exactly when it is kept. */
  lemma FilterPrefixStep<T(!new)>(xs: seq<T>, i: nat, keep: T -> bool)
    requires i < |xs|
    ensures Filter(xs[..i + 1], keep) == Filter(xs[..i], keep) + (if keep(xs[i]) then [xs[i]] else [])
  {
    assert xs[..i + 1] == xs[..i] + [xs[i]];
    FilterAppend(xs[..i], [xs[i]], keep);
  }

  /** A filter that accepts everything changes nothing. */
  lemma {:induction false} FilterKeepsAll<T(!new)>(xs: seq<T>, keep: T -> bool)
    requires forall i :: 0 <= i < |xs| ==> keep(xs[i])
    ensures Filter(xs, keep) == xs
  {
    if xs != [] {
      FilterKeepsAll(xs[1..], keep);
    }
  }

  /** Filtering twice by the same test is filtering once. */
  lemma FilterIdempotent<T(!new)>(xs: seq<T>, keep: T -> bool)
    ensures Filter(Filter(xs, keep), keep) == Filter(xs, keep)
  {
    FilterKeepsAll(Filter(xs, keep), keep);
  }

  /** The number of elements `p` accepts. */
  function Count<T(!new)>(xs: seq<T>, p: T -> bool): (n: nat)
    ensures n <= |xs|
    ensures n == |Filter(xs, p)|
  {
    if xs == [] then 0 else (if p(xs[0]) then 1 else 0) + Count(xs[1..], p)
  }

  lemma {:induction false} CountNone<T(!new)>(xs: seq<T>, p: T -> bool)
    requires forall i :: 0 <= i < |xs| ==> !p(xs[i])
    ensures Count(xs, p) == 0
  {
    if xs != [] {
      CountNone(xs[1..], p);
    }
  }

  /** `xs.findIndex(p)`, and the index `xs.find(p)` reads: the first element `p` accepts. */
  function FirstIndex<T>(xs: seq<T>, p: T -> bool): (r: Option<nat>)
    ensures r.Some? ==> r.value < |xs| && p(xs[r.value])
                        && forall j :: 0 <= j < r.value ==> !p(xs[j])
    ensures r.None? ==> forall j :: 0 <= j < |xs| ==> !p(xs[j])
  {
    if xs == [] then None
    else if p(xs[0]) then Some(0)
    else match FirstIndex(xs[1..], p)
         case None => None
         case Some(i) => Some(i + 1)
  }

  /** The first index where `p` holds is the one before which it never holds. */
  lemma FirstIndexAt<T>(xs: seq<T>, p: T -> bool, i: nat)
    requires i < |xs| && p(xs[i]) && forall j :: 0 <= j < i ==> !p(xs[j])
    ensures FirstIndex(xs, p).Some? && FirstIndex(xs, p).value == i
  {
  }

  /** `Array.from(m.values())` for a `Map` whose keys were first set in the order `order`. */
  function ValuesInOrder<K, V>(order: seq<K>, m: map<K, V>): (r: seq<V>)
    requires forall i :: 0 <= i < |order| ==> order[i] in m
    ensures |r| == |order| && forall i :: 0 <= i < |order| ==> r[i] == m[order[i]]
  {
    if order == [] then [] else [m[order[0]]] + ValuesInOrder(order[1..], m)
  }

  /** No element occurs twice. */
  predicate Distinct<T(==)>(xs: seq<T>) {
    forall i, j :: 0 <= i < j < |xs| ==> xs[i] != xs[j]
  }

  /** A filter that rejects everything gives nothing. */
  lemma FilterRejectsAll<T(!new)>(xs: seq<T>, keep: T -> bool)
    requires forall i :: 0 <= i < |xs| ==> !keep(xs[i])
    ensures Filter(xs, keep) == []
  {
    CountNone(xs, keep);
  }

  /** Filtering keeps a repeat-free sequence repeat-free. */
  lemma {:induction false} FilterDistinct<T(!new)>(xs: seq<T>, keep: T -> bool)
    requires Distinct(xs)
    ensures Distinct(Filter(xs, keep))
  {
    if xs != [] {
      FilterDistinct(xs[1..], keep);
      assert xs[0] !in xs[1..];
    }
  }

  /** A filter and its complement split a sequence's elements between them. */
  lemma {:induction false} FilterSplits<T(!new)>(xs: seq<T>, keep: T -> bool, drop: T -> bool)
    requires forall i :: 0 <= i < |xs| ==> (drop(xs[i]) <==> !keep(xs[i]))
    ensures multiset(Filter(xs, keep)) + multiset(Filter(xs, drop)) == multiset(xs)
  {
    if xs != [] {
      FilterSplits(xs[1..], keep, drop);
      var h, t := xs[0], xs[1..];
      assert multiset(xs) == multiset{h} + multiset(t) by {
        assert xs == [h] + t;
      }
      if keep(h) {
        assert multiset(Filter(xs, keep)) == multiset{h} + multiset(Filter(t, keep));
        assert Filter(xs, drop) == Filter(t, drop);
      } else {
        assert Filter(xs, keep) == Filter(t, keep);
        assert multiset(Filter(xs, drop)) == multiset{h} + multiset(Filter(t, drop));
      }
    }
  }

  /** Two repeat-free sequences with no element in common make a repeat-free one. */
  lemma DistinctAppend<T>(xs: seq<T>, ys: seq<T>)
    requires Distinct(xs) && Distinct(ys)
    requires forall x :: x in xs ==> x !in ys
    ensures Distinct(xs + ys)
  {
    forall i, j | 0 <= i < j < |xs + ys| ensures (xs + ys)[i] != (xs + ys)[j] {
      if i < |xs| && j >= |xs| {
        assert (xs + ys)[i] in xs && (xs + ys)[j] == ys[j - |xs|];
      }
    }
  }
}
