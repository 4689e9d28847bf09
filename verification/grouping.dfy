/** Grouping a sequence by a key, in the order keys are first seen. This is the shape of a
    JavaScript `Map` filled by a loop that creates an entry for a new key and merges into the
    existing entry otherwise; the front end deduplicates terms this way. */
module Grouping {
  import opened Collections

  /** The distinct keys of `xs` in the order of their first occurrence: the key order of a
      `Map` filled from `xs`. */
  function Keys<T, K(==)>(xs: seq<T>, key: T -> K): (r: seq<K>)
    ensures forall i, j :: 0 <= i < j < |r| ==> r[i] != r[j]
    ensures forall i :: 0 <= i < |xs| ==> key(xs[i]) in r
  {
    if xs == [] then []
    else
      var init := xs[..|xs| - 1];
      var ks := Keys(init, key);
      var k := key(xs[|xs| - 1]);
      assert forall i :: 0 <= i < |init| ==> init[i] == xs[i];
      if k in ks then ks else ks + [k]
  }

  /** Every key is the key of some element. */
  lemma {:induction false} KeyHasWitness<T, K>(xs: seq<T>, key: T -> K, k: K)
    requires k in Keys(xs, key)
    ensures exists i :: 0 <= i < |xs| && key(xs[i]) == k
  {
    var init := xs[..|xs| - 1];
    if k in Keys(init, key) {
      KeyHasWitness(init, key, k);
      var i :| 0 <= i < |init| && key(init[i]) == k;
      assert key(xs[i]) == k;
    } else {
      assert key(xs[|xs| - 1]) == k;
    }
  }

  /** The elements of `xs` whose key is `k`, in their order. */
  function Members<T(!new), K(==)>(xs: seq<T>, key: T -> K, k: K): seq<T> {
    Filter(xs, (x: T) => key(x) == k)
  }

  lemma KeysSnoc<T, K>(xs: seq<T>, x: T, key: T -> K)
    ensures Keys(xs + [x], key) ==
              if key(x) in Keys(xs, key) then Keys(xs, key) else Keys(xs, key) + [key(x)]
  {
    assert (xs + [x])[..|xs|] == xs;
  }

  lemma MembersSnoc<T(!new), K>(xs: seq<T>, x: T, key: T -> K, k: K)
    ensures Members(xs + [x], key, k) ==
              Members(xs, key, k) + (if key(x) == k then [x] else [])
  {
    FilterAppend(xs, [x], (y: T) => key(y) == k);
  }

  /** A key occurs in `Keys` exactly when some element has it. */
  lemma MembersOfKey<T(!new), K>(xs: seq<T>, key: T -> K, k: K)
    ensures k in Keys(xs, key) <==> Members(xs, key, k) != []
  {
    var ms := Members(xs, key, k);
    if k in Keys(xs, key) {
      KeyHasWitness(xs, key, k);
      var i :| 0 <= i < |xs| && key(xs[i]) == k;
      assert xs[i] in ms;
    }
    if ms != [] {
      assert ms[0] in xs;
      var i :| 0 <= i < |xs| && xs[i] == ms[0];
      assert key(xs[i]) in Keys(xs, key);
    }
  }

  /** Every element a filter keeps has its key among the keys of the filtered sequence. */
  lemma KeyOfKept<T(!new), K>(xs: seq<T>, keep: T -> bool, key: T -> K, x: T)
    requires x in xs && keep(x)
    ensures key(x) in Keys(Filter(xs, keep), key)
  {
    var ys := Filter(xs, keep);
    var i :| 0 <= i < |ys| && ys[i] == x;
  }

  /** The state of a loop that groups `xs` into a map: exactly the keys seen so far, each
      holding `build` of its group. */
  ghost predicate MapHolds<T(!new), K(!new), V>(m: map<K, V>, xs: seq<T>, key: T -> K, build: seq<T> -> V) {
    (forall k :: k in m <==> k in Keys(xs, key))
    && forall k :: k in m ==> m[k] == build(Members(xs, key, k))
  }

  /** One more element: its group gains it, every other group is unchanged. */
  lemma MapHoldsSnoc<T(!new), K(!new), V>(m: map<K, V>, xs: seq<T>, x: T, key: T -> K, build: seq<T> -> V)
    requires MapHolds(m, xs, key, build)
    ensures Members(xs, key, key(x)) == [] <==> key(x) !in m
    ensures MapHolds(m[key(x) := build(Members(xs, key, key(x)) + [x])], xs + [x], key, build)
  {
    MembersOfKey(xs, key, key(x));
    var m' := m[key(x) := build(Members(xs, key, key(x)) + [x])];
    assert forall k :: k in Keys(xs + [x], key) <==> k in Keys(xs, key) || k == key(x) by {
      KeysSnoc(xs, x, key);
    }
    forall k | k in m' ensures m'[k] == build(Members(xs + [x], key, k)) {
      MembersSnoc(xs, x, key, k);
      if k != key(x) {
        assert Members(xs + [x], key, k) == Members(xs, key, k);
        assert k in m && m'[k] == m[k];
      } else {
        assert Members(xs + [x], key, k) == Members(xs, key, k) + [x];
      }
    }
  }

  /** The state of a loop that groups `xs` into a map and remembers the insertion order of
      its keys, where the value of the `j`-th key may depend on `j` (an id drawn when the
      entry is created). */
  ghost predicate OrderedMapHolds<T(!new), K(!new), V>(keys: seq<K>, m: map<K, V>, xs: seq<T>, key: T -> K,
                                                     build: (nat, K, seq<T>) -> V) {
    keys == Keys(xs, key)
    && (forall k :: k in m <==> k in keys)
    && forall j :: 0 <= j < |keys| ==> keys[j] in m && m[keys[j]] == build(j, keys[j], Members(xs, key, keys[j]))
  }

  /** One more element whose key has an entry, the `j`-th: that entry absorbs it. */
  lemma OrderedMapHoldsJoin<T(!new), K(!new), V>(keys: seq<K>, m: map<K, V>, xs: seq<T>, x: T, key: T -> K,
                                               build: (nat, K, seq<T>) -> V, j: nat)
    requires OrderedMapHolds(keys, m, xs, key, build)
    requires j < |keys| && keys[j] == key(x)
    ensures OrderedMapHolds(keys, m[key(x) := build(j, key(x), Members(xs, key, key(x)) + [x])],
                            xs + [x], key, build)
  {
    var m' := m[key(x) := build(j, key(x), Members(xs, key, key(x)) + [x])];
    assert Keys(xs + [x], key) == keys by {
      KeysSnoc(xs, x, key);
    }
    forall i | 0 <= i < |keys|
      ensures keys[i] in m' && m'[keys[i]] == build(i, keys[i], Members(xs + [x], key, keys[i]))
    {
      OrderedMapJoinEntry(keys, m, xs, x, key, build, j, i);
    }
  }

  /** The `i`-th entry after OrderedMapHoldsJoin's step. */
  lemma OrderedMapJoinEntry<T(!new), K(!new), V>(keys: seq<K>, m: map<K, V>, xs: seq<T>, x: T, key: T -> K,
                                               build: (nat, K, seq<T>) -> V, j: nat, i: nat)
    requires OrderedMapHolds(keys, m, xs, key, build)
    requires j < |keys| && keys[j] == key(x) && i < |keys|
    ensures m[key(x) := build(j, key(x), Members(xs, key, key(x)) + [x])][keys[i]]
            == build(i, keys[i], Members(xs + [x], key, keys[i]))
  {
    MembersSnoc(xs, x, key, keys[i]);
    if i != j {
      assert keys[i] != key(x);
      assert Members(xs + [x], key, keys[i]) == Members(xs, key, keys[i]);
    }
  }

  /** One more element whose key has no entry: a new entry for it goes at the end of the
      key order. */
  lemma OrderedMapHoldsAppend<T(!new), K(!new), V>(keys: seq<K>, m: map<K, V>, xs: seq<T>, x: T, key: T -> K,
                                                 build: (nat, K, seq<T>) -> V)
    requires OrderedMapHolds(keys, m, xs, key, build)
    requires key(x) !in m
    ensures OrderedMapHolds(keys + [key(x)], m[key(x) := build(|keys|, key(x), [x])], xs + [x], key, build)
  {
    var keys' := keys + [key(x)];
    var m' := m[key(x) := build(|keys|, key(x), [x])];
    assert Keys(xs + [x], key) == keys' by {
      KeysSnoc(xs, x, key);
    }
    forall i | 0 <= i < |keys'|
      ensures keys'[i] in m' && m'[keys'[i]] == build(i, keys'[i], Members(xs + [x], key, keys'[i]))
    {
      OrderedMapAppendEntry(keys, m, xs, x, key, build, i);
    }
  }

  /** The `i`-th entry after OrderedMapHoldsAppend's step. */
  lemma OrderedMapAppendEntry<T(!new), K(!new), V>(keys: seq<K>, m: map<K, V>, xs: seq<T>, x: T, key: T -> K,
                                                 build: (nat, K, seq<T>) -> V, i: nat)
    requires OrderedMapHolds(keys, m, xs, key, build)
    requires key(x) !in m && i <= |keys|
    ensures (keys + [key(x)])[i] in m[key(x) := build(|keys|, key(x), [x])]
    ensures m[key(x) := build(|keys|, key(x), [x])][(keys + [key(x)])[i]]
            == build(i, (keys + [key(x)])[i], Members(xs + [x], key, (keys + [key(x)])[i]))
  {
    var keys' := keys + [key(x)];
    MembersSnoc(xs, x, key, keys'[i]);
    if i == |keys| {
      MembersOfKey(xs, key, key(x));
      assert Members(xs + [x], key, key(x)) == [x];
    } else {
      assert keys'[i] == keys[i] && keys[i] in m && keys[i] != key(x);
      assert Members(xs + [x], key, keys[i]) == Members(xs, key, keys[i]);
    }
  }

  /** The keys in insertion order and the map that a loop over `xs` builds when it creates
      the entry of a new key with `start` (given the entry's index) and folds a later
      element into the entry of its key with `absorb`. */
  function FoldByKey<T, K(==), V>(xs: seq<T>, key: T -> K, start: (nat, T) -> V, absorb: (V, T) -> V): (seq<K>, map<K, V>)
  {
    if xs == [] then ([], map[])
    else
      var (ks, m) := FoldByKey(xs[..|xs| - 1], key, start, absorb);
      var x := xs[|xs| - 1];
      if key(x) in m then (ks, m[key(x) := absorb(m[key(x)], x)])
      else (ks + [key(x)], m[key(x) := start(|ks|, x)])
  }

  /** When `build` starts a group with `start` and grows it with `absorb`, the fold holds
      `build` of every group, keyed in first-seen order. */
  lemma {:induction false} FoldByKeyHolds<T(!new), K(!new), V>(xs: seq<T>, key: T -> K, start: (nat, T) -> V,
                                                              absorb: (V, T) -> V, build: (nat, K, seq<T>) -> V)
    requires forall j: nat, x: T :: build(j, key(x), [x]) == start(j, x)
    requires forall j: nat, k: K, ms: seq<T>, x: T :: ms != [] ==> build(j, k, ms + [x]) == absorb(build(j, k, ms), x)
    ensures OrderedMapHolds(FoldByKey(xs, key, start, absorb).0, FoldByKey(xs, key, start, absorb).1, xs, key, build)
  {
    if xs != [] {
      var init := xs[..|xs| - 1];
      var x := xs[|xs| - 1];
      assert xs == init + [x];
      FoldByKeyHolds(init, key, start, absorb, build);
      var (ks, m) := FoldByKey(init, key, start, absorb);
      if key(x) in m {
        var j :| 0 <= j < |ks| && ks[j] == key(x);
        MembersOfKey(init, key, key(x));
        OrderedMapHoldsJoin(ks, m, init, x, key, build, j);
      } else {
        MembersOfKey(init, key, key(x));
        OrderedMapHoldsAppend(ks, m, init, x, key, build);
      }
    }
  }

  /** The total size of the groups named by `ks`. */
  function SizeSum<T(!new), K(==)>(xs: seq<T>, key: T -> K, ks: seq<K>): nat {
    if ks == [] then 0
    else SizeSum(xs, key, ks[..|ks| - 1]) + |Members(xs, key, ks[|ks| - 1])|
  }

  lemma {:induction false} SizeSumSnoc<T(!new), K>(xs: seq<T>, x: T, key: T -> K, ks: seq<K>)
    requires forall i, j :: 0 <= i < j < |ks| ==> ks[i] != ks[j]
    ensures SizeSum(xs + [x], key, ks) == SizeSum(xs, key, ks) + (if key(x) in ks then 1 else 0)
  {
    if ks != [] {
      var init := ks[..|ks| - 1];
      var last := ks[|ks| - 1];
      SizeSumSnoc(xs, x, key, init);
      MembersSnoc(xs, x, key, last);
      assert key(x) in ks <==> key(x) in init || key(x) == last by {
        assert ks == init + [last];
      }
      assert key(x) == last ==> key(x) !in init;
    }
  }

  /** The groups partition the sequence: their sizes add up to its length. */
  lemma {:induction false} MembersPartition<T(!new), K>(xs: seq<T>, key: T -> K)
    ensures SizeSum(xs, key, Keys(xs, key)) == |xs|
    decreases |xs|
  {
    if xs != [] {
      var init := xs[..|xs| - 1];
      var x := xs[|xs| - 1];
      assert xs == init + [x];
      var ks := Keys(init, key);
      MembersPartition(init, key);
      KeysSnoc(init, x, key);
      SizeSumSnoc(init, x, key, ks);
      if key(x) in ks {
        assert Keys(xs, key) == ks;
        assert SizeSum(xs, key, ks) == |init| + 1;
      } else {
        var ks' := ks + [key(x)];
        assert Keys(xs, key) == ks';
        assert ks'[..|ks|] == ks;
        MembersOfKey(init, key, key(x));
        MembersSnoc(init, x, key, key(x));
        assert |Members(xs, key, key(x))| == 1;
        assert SizeSum(xs, key, ks') == SizeSum(xs, key, ks) + 1;
        assert SizeSum(xs, key, ks) == |init|;
      }
    }
  }

  /** The distinct elements of `xs`, in the order of first occurrence. */
  function Dedup<T(==)>(xs: seq<T>): (r: seq<T>)
    ensures forall i, j :: 0 <= i < j < |r| ==> r[i] != r[j]
    ensures forall i :: 0 <= i < |xs| ==> xs[i] in r
    ensures forall i :: 0 <= i < |r| ==> r[i] in xs
  {
    if xs == [] then []
    else
      var init := xs[..|xs| - 1];
      var d := Dedup(init);
      assert forall i :: 0 <= i < |init| ==> init[i] == xs[i];
      assert forall y :: y in init ==> y in xs;
      if xs[|xs| - 1] in d then d else d + [xs[|xs| - 1]]
  }

  lemma DedupMember<T>(xs: seq<T>, x: T)
    ensures x in Dedup(xs) <==> x in xs
  {
    if x in xs {
      var i :| 0 <= i < |xs| && xs[i] == x;
    }
  }

  lemma DedupMembers<T>(xs: seq<T>)
    ensures forall x :: x in Dedup(xs) <==> x in xs
  {
    forall x ensures x in Dedup(xs) <==> x in xs {
      DedupMember(xs, x);
    }
  }

  lemma DedupSnoc<T>(xs: seq<T>, x: T)
    ensures Dedup(xs + [x]) == if x in Dedup(xs) then Dedup(xs) else Dedup(xs) + [x]
  {
    assert (xs + [x])[..|xs|] == xs;
  }
}
