/** `sorted(set(xs))` and `numpy.argsort`, with the facts the Subset model
    needs about them. */
module Sorting {
  import opened Progressions

  function Elems(s: seq<int>): set<int> {
    set x | x in s
  }

  /** Insert `x` into a strictly increasing sequence, dropping it if present. */
  function InsertUnique(x: int, s: seq<int>): (r: seq<int>)
    requires StrictlyIncreasing(s)
    ensures StrictlyIncreasing(r)
    ensures forall y :: y in r <==> y == x || y in s
  {
    if s == [] then [x]
    else if x < s[0] then [x] + s
    else if x == s[0] then s
    else
      var rest := InsertUnique(x, s[1..]);
      assert forall y :: y in s[1..] ==> s[0] < y;
      PrependIncreasing(s[0], rest);
      [s[0]] + rest
  }

  lemma PrependIncreasing(h: int, s: seq<int>)
    requires StrictlyIncreasing(s)
    requires forall y :: y in s ==> h < y
    ensures StrictlyIncreasing([h] + s)
  {
    var t := [h] + s;
    forall i, j | 0 <= i < j < |t| ensures t[i] < t[j] {
      if i == 0 {
        assert t[j] == s[j - 1];
        assert s[j - 1] in s;
      } else {
        assert t[i] == s[i - 1] && t[j] == s[j - 1];
      }
    }
  }

  /** `sorted(set(xs))`: the distinct values of `xs`, in increasing order. */
  function SortedUnique(xs: seq<int>): (r: seq<int>)
    ensures StrictlyIncreasing(r)
    ensures forall y :: y in r <==> y in xs
  {
    if xs == [] then []
    else
      assert forall y :: y in xs <==> y == xs[0] || y in xs[1..];
      InsertUnique(xs[0], SortedUnique(xs[1..]))
  }

  lemma SortedUniqueElems(xs: seq<int>)
    ensures Elems(SortedUnique(xs)) == Elems(xs)
  {
  }

  lemma EmptyElems(s: seq<int>)
    ensures s == [] <==> Elems(s) == {}
  {
    if s != [] {
      assert s[0] in Elems(s);
    }
  }

  /** A strictly increasing sequence is determined by its set of values. */
  lemma {:induction false} StrictlyIncreasingUnique(a: seq<int>, b: seq<int>)
    requires StrictlyIncreasing(a) && StrictlyIncreasing(b)
    requires Elems(a) == Elems(b)
    ensures a == b
  {
    EmptyElems(a);
    EmptyElems(b);
    if a != [] && b != [] {
      assert a[0] in Elems(b) && b[0] in Elems(a);
      assert a[0] == b[0];
      assert a == [a[0]] + a[1..] && b == [b[0]] + b[1..];
      assert a[0] !in Elems(a[1..]);
      assert b[0] !in Elems(b[1..]);
      assert Elems(a) == {a[0]} + Elems(a[1..]);
      assert Elems(b) == {b[0]} + Elems(b[1..]);
      assert Elems(a[1..]) == Elems(b[1..]);
      StrictlyIncreasingUnique(a[1..], b[1..]);
    }
  }

  /** `sorted(set(xs))` depends on the set of values of `xs` only. */
  lemma SortedUniqueOfSameSet(xs: seq<int>, ys: seq<int>)
    requires Elems(xs) == Elems(ys)
    ensures SortedUnique(xs) == SortedUnique(ys)
  {
    SortedUniqueElems(xs);
    SortedUniqueElems(ys);
    StrictlyIncreasingUnique(SortedUnique(xs), SortedUnique(ys));
  }

  /** Sorting an already strictly increasing sequence returns it. */
  lemma SortedUniqueOfIncreasing(xs: seq<int>)
    requires StrictlyIncreasing(xs)
    ensures SortedUnique(xs) == xs
  {
    SortedUniqueElems(xs);
    StrictlyIncreasingUnique(SortedUnique(xs), xs);
  }

  /** `all(s[i] + 1 == s[i + 1] for i in range(len(s) - 1))`. */
  predicate Contiguous(s: seq<int>) {
    forall i :: 0 <= i < |s| - 1 ==> s[i] + 1 == s[i + 1]
  }

  /** A contiguous run is the step-1 progression from its first to one past its last value. */
  lemma {:induction false} ContiguousIsUnitProgression(s: seq<int>)
    requires |s| > 0 && Contiguous(s)
    ensures Progression(s[0], s[|s| - 1] + 1, 1) == s
    decreases |s|
  {
    if |s| > 1 {
      ContiguousIsUnitProgression(s[1..]);
      assert s == [s[0]] + s[1..];
    } else {
      assert Progression(s[0] + 1, s[0] + 1, 1) == [];
    }
  }

  // ---------------------------------------------------------------------
  // numpy.argsort

  /** `order` lists positions of `key` whose keys do not decrease. */
  predicate SortedByKey(key: seq<int>, order: seq<int>) {
    && (forall k :: 0 <= k < |order| ==> 0 <= order[k] < |key|)
    && (forall i, j :: 0 <= i < j < |order| ==> key[order[i]] <= key[order[j]])
  }

  function InsertByKey(key: seq<int>, i: int, order: seq<int>): (r: seq<int>)
    requires 0 <= i < |key| && SortedByKey(key, order)
    ensures SortedByKey(key, r)
    ensures multiset(r) == multiset(order) + multiset{i}
  {
    if order == [] then [i]
    else if key[i] <= key[order[0]] then [i] + order
    else
      var rest := InsertByKey(key, i, order[1..]);
      assert order == [order[0]] + order[1..];
      InsertedAbove(key, i, order, rest);
      PrependByKey(key, order[0], rest);
      [order[0]] + rest
  }

  /** Every position inserted after the head of `order` has a key at least the head's. */
  lemma InsertedAbove(key: seq<int>, i: int, order: seq<int>, rest: seq<int>)
    requires 0 <= i < |key| && SortedByKey(key, order) && |order| > 0 && key[order[0]] < key[i]
    requires SortedByKey(key, rest) && multiset(rest) == multiset(order[1..]) + multiset{i}
    ensures forall k :: 0 <= k < |rest| ==> key[order[0]] <= key[rest[k]]
  {
    forall k | 0 <= k < |rest| ensures key[order[0]] <= key[rest[k]] {
      assert rest[k] in multiset(rest);
      if rest[k] != i {
        assert rest[k] in order[1..];
        var j :| 0 <= j < |order[1..]| && order[1..][j] == rest[k];
        assert order[j + 1] == rest[k];
      }
    }
  }

  lemma PrependByKey(key: seq<int>, h: int, s: seq<int>)
    requires 0 <= h < |key| && SortedByKey(key, s)
    requires forall k :: 0 <= k < |s| ==> key[h] <= key[s[k]]
    ensures SortedByKey(key, [h] + s)
  {
    var t := [h] + s;
    forall i, j | 0 <= i < j < |t| ensures key[t[i]] <= key[t[j]] {
      assert t[j] == s[j - 1];
      if i > 0 {
        assert t[i] == s[i - 1];
      }
    }
  }

  /** Argsort of the first `n` keys. */
  function ArgSortPrefix(key: seq<int>, n: nat): (r: seq<int>)
    requires n <= |key|
    ensures SortedByKey(key, r)
    ensures multiset(r) == multiset(Iota(n))
  {
    if n == 0 then []
    else
      assert Iota(n) == Iota(n - 1) + [n - 1];
      InsertByKey(key, n - 1, ArgSortPrefix(key, n - 1))
  }

  /** `numpy.argsort(key)`: a permutation of the positions of `key` that lists
      them in non-decreasing order of their keys. */
  function ArgSort(key: seq<int>): (order: seq<int>)
    ensures SortedByKey(key, order)
    ensures |order| == |key|
    ensures forall p :: 0 <= p < |key| ==> p in order
  {
    var r := ArgSortPrefix(key, |key|);
    PermutationOfIota(r, |key|);
    r
  }

  /** Reading a list in argsort order gives it sorted. */
  lemma ArgSortSorts(key: seq<int>)
    ensures NonDecreasing(Gather(key, ArgSort(key)))
  {
    var order := ArgSort(key);
    var g := Gather(key, order);
    forall i, j | 0 <= i < j < |g| ensures g[i] <= g[j] {
      assert g[i] == key[order[i]] && g[j] == key[order[j]];
    }
  }

  lemma PermutationOfIota(r: seq<int>, n: nat)
    requires multiset(r) == multiset(Iota(n))
    ensures |r| == n
    ensures forall p :: 0 <= p < n ==> p in r
  {
    assert |r| == |multiset(r)|;
    forall p | 0 <= p < n ensures p in r {
      assert Iota(n)[p] == p;
      assert p in multiset(Iota(n));
    }
  }
}
