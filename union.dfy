/** `Subset.__add__`: the union of two subsets of the same dataset. */
module Union {
  import opened Wrappers
  import opened Progressions
  import opened Sorting
  import opened Subsets

  /** `s[list(range(s.num_examples))]`: the absolute indices of all of the
      subset's examples. */
  function Expand(s: Subset): (r: seq<int>)
    requires Valid(s)
    ensures r == Members(s)
  {
    var num := NumExamples(s);
    var all := Iota(num);
    assert !(exists i | 0 <= i < |all| :: all[i] < 0);
    assert !(exists i | 0 <= i < |all| :: all[i] >= num);
    GetItemMeaning(s, IndexList(all));
    assert Gather(Members(s), all) == Members(s);
    GetItem(s, IndexList(all)).value.indices
  }

  /** `a + b`. Lists are concatenated and rebuilt; a slice is first expanded
      to its indices, except that two step-1 slices that overlap or touch
      merge into one slice from the smaller start to the larger stop. */
  function Add(a: Subset, b: Subset): (r: Result<Subset, Error>)
    requires Valid(a) && Valid(b)
    ensures a.originalNumExamples != b.originalNumExamples ==> r == Err(IncompatibleRange)
  {
    if a.originalNumExamples != b.originalNumExamples then Err(IncompatibleRange)
    else
      var n := a.originalNumExamples;
      match (a.listOrSlice, b.listOrSlice)
      case (IndexList(la), IndexList(lb)) =>
        Construct(IndexList(la + lb), n)
      case (IndexList(la), SliceOf(_)) =>
        Construct(IndexList(la + Expand(b)), n)
      case (SliceOf(_), IndexList(lb)) =>
        Construct(IndexList(Expand(a) + lb), n)
      case (SliceOf(sa), SliceOf(sb)) =>
        var (aStart, aStop, aStep) := SliceToNumericalArgs(sa, n);
        var (bStart, bStop, bStep) := SliceToNumericalArgs(sb, n);
        var overlap := !(aStop < bStart || aStart > bStop);
        if overlap && aStep == 1 && bStep == 1 then
          Construct(SliceOf(Slice(Some(Min(aStart, bStart)), Some(Max(aStop, bStop)), Some(aStep))), n)
        else
          Construct(IndexList(Expand(a) + Expand(b)), n)
  }

  /** The case of `__add__` that merges two step-1 slices without expanding them. */
  predicate Mergeable(a: Subset, b: Subset) {
    && a.listOrSlice.SliceOf? && b.listOrSlice.SliceOf?
    && var n := a.originalNumExamples;
    var (aStart, aStop, aStep) := SliceToNumericalArgs(a.listOrSlice.slice, n);
    var (bStart, bStop, bStep) := SliceToNumericalArgs(b.listOrSlice.slice, n);
    !(aStop < bStart || aStart > bStop) && aStep == 1 && bStep == 1
  }

  /** The merged slice of two mergeable slices. */
  function MergedSlice(a: Subset, b: Subset): ListOrSlice
    requires a.listOrSlice.SliceOf? && b.listOrSlice.SliceOf?
  {
    var n := a.originalNumExamples;
    var (aStart, aStop, _) := SliceToNumericalArgs(a.listOrSlice.slice, n);
    var (bStart, bStop, _) := SliceToNumericalArgs(b.listOrSlice.slice, n);
    SliceOf(Slice(Some(Min(aStart, bStart)), Some(Max(aStop, bStop)), Some(1)))
  }

  /** Every case of `__add__` but the merge rebuilds from the concatenated indices. */
  lemma AddCases(a: Subset, b: Subset)
    requires Valid(a) && Valid(b)
    requires a.originalNumExamples == b.originalNumExamples
    ensures Mergeable(a, b) ==> Add(a, b) == Construct(MergedSlice(a, b), a.originalNumExamples)
    ensures !Mergeable(a, b) ==>
      Add(a, b) == Construct(IndexList(Members(a) + Members(b)), a.originalNumExamples)
  {
  }

  lemma ElemsConcat(x: seq<int>, y: seq<int>)
    ensures Elems(x + y) == Elems(x) + Elems(y)
  {
  }

  /** Two step-1 slices that overlap or touch cover the same indices as the
      slice from the smaller start to the larger stop. */
  lemma MergedUnitSlices(a0: int, a1: int, b0: int, b1: int)
    requires !(a1 < b0 || a0 > b1)
    ensures Elems(Progression(Min(a0, b0), Max(a1, b1), 1))
         == Elems(Progression(a0, a1, 1)) + Elems(Progression(b0, b1, 1))
  {
    forall x ensures x in Progression(Min(a0, b0), Max(a1, b1), 1)
                 <==> x in Progression(a0, a1, 1) || x in Progression(b0, b1, 1)
    {
      UnitProgressionElems(Min(a0, b0), Max(a1, b1), x);
      UnitProgressionElems(a0, a1, x);
      UnitProgressionElems(b0, b1, x);
    }
  }

  /** The sum of two subsets of the same dataset always exists and holds
      exactly the examples of either operand, sorted and without duplicates. */
  lemma AddIsUnion(a: Subset, b: Subset)
    requires Valid(a) && Valid(b)
    requires a.originalNumExamples == b.originalNumExamples
    ensures Add(a, b).Ok?
    ensures Valid(Add(a, b).value) && Add(a, b).value.originalNumExamples == a.originalNumExamples
    ensures Members(Add(a, b).value) == SortedUnique(Members(a) + Members(b))
    ensures forall x :: x in Members(Add(a, b).value) <==> x in Members(a) || x in Members(b)
  {
    var n := a.originalNumExamples;
    var both := Members(a) + Members(b);
    AddCases(a, b);
    SortedUniqueElems(both);
    if Mergeable(a, b) {
      MergeIsUnion(a, b);
    } else {
      assert forall k :: 0 <= k < |both| ==> 0 <= both[k] < n;
      ConstructFromIndices(both, n);
    }
  }

  /** The merge case: the merged slice is valid and holds the sorted union. */
  lemma MergeIsUnion(a: Subset, b: Subset)
    requires Valid(a) && Valid(b)
    requires a.originalNumExamples == b.originalNumExamples
    requires Mergeable(a, b)
    ensures Construct(MergedSlice(a, b), a.originalNumExamples).Ok?
    ensures Members(Construct(MergedSlice(a, b), a.originalNumExamples).value)
         == SortedUnique(Members(a) + Members(b))
  {
    var n := a.originalNumExamples;
    var (aStart, aStop, _) := SliceToNumericalArgs(a.listOrSlice.slice, n);
    var (bStart, bStop, _) := SliceToNumericalArgs(b.listOrSlice.slice, n);
    var lo, hi := Min(aStart, bStart), Max(aStop, bStop);
    assert Members(a) == Progression(aStart, aStop, 1);
    assert Members(b) == Progression(bStart, bStop, 1);
    assert MergedSlice(a, b) == SliceOf(Slice(Some(lo), Some(hi), Some(1)));
    assert SliceSanityCheck(Slice(Some(lo), Some(hi), Some(1)), n) == None;
    var u := Construct(MergedSlice(a, b), n).value;
    assert Members(u) == Progression(lo, hi, 1);
    MergedSortedUnion(aStart, aStop, bStart, bStop);
  }

  lemma MergedSortedUnion(a0: int, a1: int, b0: int, b1: int)
    requires !(a1 < b0 || a0 > b1)
    ensures Progression(Min(a0, b0), Max(a1, b1), 1)
         == SortedUnique(Progression(a0, a1, 1) + Progression(b0, b1, 1))
  {
    var both := Progression(a0, a1, 1) + Progression(b0, b1, 1);
    MergedUnitSlices(a0, a1, b0, b1);
    ElemsConcat(Progression(a0, a1, 1), Progression(b0, b1, 1));
    SortedUniqueElems(both);
    ProgressionIncreasing(Min(a0, b0), Max(a1, b1), 1);
    StrictlyIncreasingUnique(Progression(Min(a0, b0), Max(a1, b1), 1), SortedUnique(both));
  }

  /** A value condition met by some element of `x` is met by some element of
      any `y` holding all of `x`'s values. */
  lemma NegativeCarries(x: seq<int>, y: seq<int>)
    requires Elems(x) <= Elems(y)
    ensures (exists i | 0 <= i < |x| :: x[i] < 0) ==> (exists j | 0 <= j < |y| :: y[j] < 0)
  {
    if exists i | 0 <= i < |x| :: x[i] < 0 {
      var i :| 0 <= i < |x| && x[i] < 0;
      assert x[i] in Elems(x);
      var j :| 0 <= j < |y| && y[j] == x[i];
    }
  }

  lemma TooLargeCarries(x: seq<int>, y: seq<int>, n: int)
    requires Elems(x) <= Elems(y)
    ensures (exists i | 0 <= i < |x| :: x[i] >= n) ==> (exists j | 0 <= j < |y| :: y[j] >= n)
  {
    if exists i | 0 <= i < |x| :: x[i] >= n {
      var i :| 0 <= i < |x| && x[i] >= n;
      assert x[i] in Elems(x);
      var j :| 0 <= j < |y| && y[j] == x[i];
    }
  }

  /** The list check depends only on the values of the list. */
  lemma SameValuesSameCheck(x: seq<int>, y: seq<int>, n: int)
    requires Elems(x) == Elems(y)
    ensures ListSanityCheck(x, n) == ListSanityCheck(y, n)
  {
    EmptyElems(x);
    EmptyElems(y);
    NegativeCarries(x, y);
    NegativeCarries(y, x);
    TooLargeCarries(x, y, n);
    TooLargeCarries(y, x, n);
  }

  /** Rebuilding from two lists with the same values gives the same subset. */
  lemma ConstructSameValues(x: seq<int>, y: seq<int>, n: nat)
    requires Elems(x) == Elems(y)
    ensures Construct(IndexList(x), n) == Construct(IndexList(y), n)
  {
    SameValuesSameCheck(x, y, n);
    SortedUniqueOfSameSet(x, y);
  }

  /** `a + b == b + a`, down to the stored descriptor. */
  lemma AddCommutes(a: Subset, b: Subset)
    requires Valid(a) && Valid(b)
    ensures Add(a, b) == Add(b, a)
  {
    if a.originalNumExamples == b.originalNumExamples {
      var n := a.originalNumExamples;
      var ma, mb := Members(a), Members(b);
      AddCases(a, b);
      AddCases(b, a);
      assert Mergeable(a, b) <==> Mergeable(b, a);
      if Mergeable(a, b) {
        assert MergedSlice(a, b) == MergedSlice(b, a);
      } else {
        ElemsConcat(ma, mb);
        ElemsConcat(mb, ma);
        ConstructSameValues(ma + mb, mb + ma, n);
      }
    }
  }
}
