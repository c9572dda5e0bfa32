/** The expectations of tests/test_utils.py, proved of the model.

    Several lemmas take their list literals as parameters fixed by a
    `requires l == [...]`. A literal written directly in an `ensures` lets
    the verifier unfold `SortedUnique` and the other recursive definitions
    on it without bound; a parameter keeps the proof to the steps the lemma
    body gives. */
module WorkedExamples {
  import opened Wrappers
  import opened Subsets
  import opened Union
  import opened Sorting
  import opened Progressions

  function Sl(start: Option<int>, stop: Option<int>, step: Option<int>): ListOrSlice {
    SliceOf(Slice(start, stop, step))
  }

  lemma ConstructionRejections()
    ensures Construct(IndexList([0, -1]), 2) == Err(InvalidRange(NegativeIndex))
    ensures Construct(IndexList([0, 10]), 2) == Err(InvalidRange(IndexTooLarge))
    ensures Construct(IndexList([]), 15) == Err(InvalidRange(EmptyList))
    ensures Construct(Sl(Some(-1), None, None), 2) == Err(InvalidRange(NegativeSliceArgument))
    ensures Construct(Sl(None, Some(-1), None), 2) == Err(InvalidRange(NegativeSliceArgument))
    ensures Construct(Sl(None, None, Some(-1)), 2) == Err(InvalidRange(NegativeSliceArgument))
    ensures Construct(Sl(None, Some(10), None), 2) == Err(InvalidRange(StopTooLarge))
    ensures Construct(Sl(Some(11), Some(10), None), 15) == Err(InvalidRange(EmptySlice))
  {
    assert exists i | 0 <= i < 2 :: [0, -1][i] < 0 by { assert [0, -1][1] < 0; }
    assert exists i | 0 <= i < 2 :: [0, 10][i] >= 2 by { assert [0, 10][1] >= 2; }
  }

  lemma ListNumExamples()
    ensures Construct(IndexList([0, 3, 8, 13]), 15).Ok?
    ensures NumExamples(Construct(IndexList([0, 3, 8, 13]), 15).value) == 4
  {
  }

  lemma SliceNumExamples()
    ensures NumExamples(Subset(Sl(Some(3), Some(18), Some(1)), 50)) == 15
    ensures NumExamples(Subset(Sl(Some(2), Some(37), Some(7)), 50)) == 5
    ensures NumExamples(Subset(Sl(Some(2), Some(37), Some(8)), 50)) == 5
  {
  }

  /** A raw list whose distinct values, in increasing order, are the
      non-contiguous `t` is stored as the list `t`. */
  lemma {:induction false} ListNormalisesTo(l: seq<int>, t: seq<int>, n: nat)
    requires ListSanityCheck(l, n) == None
    requires Elems(l) == Elems(t) && StrictlyIncreasing(t) && !Contiguous(t)
    ensures Construct(IndexList(l), n) == Ok(Subset(IndexList(t), n))
  {
    SortedUniqueOfSameSet(l, t);
    SortedUniqueOfIncreasing(t);
  }

  /** A progression that falls short of its stop after three terms. */
  lemma ThreeTerms(start: int, stop: int, step: int)
    requires 0 < step && start + 2 * step < stop <= start + 3 * step
    ensures Progression(start, stop, step) == [start, start + step, start + 2 * step]
  {
    ProgressionLength(start, stop, step);
    DivUnique(stop - start - 1, step, 2, stop - start - 1 - 2 * step);
    ProgressionAt(start, stop, step, 0);
    ProgressionAt(start, stop, step, 1);
    ProgressionAt(start, stop, step, 2);
  }

  lemma IsListExamples()
    ensures !IsList(Subset(Sl(None, None, None), 2))
    ensures Construct(IndexList([0, 1, 3]), 4) == Ok(Subset(IndexList([0, 1, 3]), 4))
    ensures IsList(Subset(IndexList([0, 1, 3]), 4))
  {
    assert [0, 1, 3][1] + 1 != [0, 1, 3][2];
    ListNormalisesTo([0, 1, 3], [0, 1, 3], 4);
  }

  lemma ListDuplicatesRemoved(l: seq<int>)
    requires l == [0, 3, 3, 5]
    ensures Construct(IndexList(l), 10) == Ok(Subset(IndexList([0, 3, 5]), 10))
  {
    assert Elems(l) == Elems([0, 3, 5]);
    assert [0, 3, 5][0] + 1 != [0, 3, 5][1];
    ListNormalisesTo(l, [0, 3, 5], 10);
  }

  lemma ListSorted(l: seq<int>)
    requires l == [0, 3, 1, 5]
    ensures Construct(IndexList(l), 10) == Ok(Subset(IndexList([0, 1, 3, 5]), 10))
  {
    assert Elems(l) == Elems([0, 1, 3, 5]);
    assert [0, 1, 3, 5][1] + 1 != [0, 1, 3, 5][2];
    ListNormalisesTo(l, [0, 1, 3, 5], 10);
  }

  lemma ContiguousListBecomesSlice(l: seq<int>)
    requires l == [1, 2, 3]
    ensures Construct(IndexList(l), 10) == Ok(Subset(Sl(Some(1), Some(4), None), 10))
  {
    SortedUniqueOfIncreasing(l);
    assert Contiguous(l);
    assert BeautifyList(l) == Sl(Some(1), Some(4), None);
  }

  lemma GetItemOfList(l: seq<int>)
    requires l == [0, 2, 5, 7, 10, 15]
    ensures var s := Construct(IndexList(l), 16);
      && s == Ok(Subset(IndexList(l), 16))
      && GetItem(s.value, IndexList([3, 2, 4])) == Ok(IndexList([7, 5, 10]))
      && GetItem(s.value, Sl(Some(1), Some(4), Some(2))) == Ok(IndexList([2, 7]))
  {
    assert l[0] + 1 != l[1];
    ListNormalisesTo(l, l, 16);
    var ks := [3, 2, 4];
    assert Gather(l, ks) == [7, 5, 10] by {
      assert |Gather(l, ks)| == 3;
    }
    var rows := Progression(1, 4, 2);
    ProgressionLength(1, 4, 2);
    ProgressionAt(1, 4, 2, 0);
    ProgressionAt(1, 4, 2, 1);
    assert rows == [1, 3];
    assert Gather(l, rows) == [2, 7];
  }

  lemma GetItemOfSlice()
    ensures var s := Construct(Sl(Some(1), Some(14), Some(3)), 16);
      && s == Ok(Subset(Sl(Some(1), Some(14), Some(3)), 16))
      && GetItem(s.value, IndexList([3, 2, 4])) == Ok(IndexList([10, 7, 13]))
      && GetItem(s.value, Sl(Some(1), Some(4), Some(2))) == Ok(Sl(Some(4), Some(13), Some(6)))
  {
    var s := Subset(Sl(Some(1), Some(14), Some(3)), 16);
    assert NumExamples(s) == 5;
    assert Affine(1, 3, [3, 2, 4]) == [10, 7, 13] by {
      assert |Affine(1, 3, [3, 2, 4])| == 3;
    }
  }

  lemma AddIncompatible(la: seq<int>, lb: seq<int>)
    requires la == [1, 3] && lb == [2, 4]
    ensures var a := Construct(IndexList(la), 10);
      var b := Construct(IndexList(lb), 11);
      a.Ok? && b.Ok? && Add(a.value, b.value) == Err(IncompatibleRange)
  {
    assert la[0] + 1 != la[1];
    assert lb[0] + 1 != lb[1];
    ListNormalisesTo(la, la, 10);
    ListNormalisesTo(lb, lb, 11);
  }

  /** The operands of the list + list example, once built. */
  lemma ListListOperands(la: seq<int>, lb: seq<int>)
    requires la == [0, 3, 2, 8] && lb == [0, 4, 5]
    ensures Construct(IndexList(la), 10) == Ok(Subset(IndexList([0, 2, 3, 8]), 10))
    ensures Construct(IndexList(lb), 10) == Ok(Subset(IndexList(lb), 10))
  {
    UnsortedOperand(la, [0, 2, 3, 8]);
    assert lb[0] + 1 != lb[1];
    ListNormalisesTo(lb, lb, 10);
  }

  lemma UnsortedOperand(la: seq<int>, sa: seq<int>)
    requires la == [0, 3, 2, 8] && sa == [0, 2, 3, 8]
    ensures Construct(IndexList(la), 10) == Ok(Subset(IndexList(sa), 10))
  {
    assert Elems(la) == Elems(sa);
    assert sa[0] + 1 != sa[1];
    ListNormalisesTo(la, sa, 10);
  }

  lemma ListListUnion(sa: seq<int>, lb: seq<int>, t: seq<int>)
    requires sa == [0, 2, 3, 8] && lb == [0, 4, 5] && t == [0, 2, 3, 4, 5, 8]
    ensures Construct(IndexList(sa + lb), 10) == Ok(Subset(IndexList(t), 10))
  {
    assert t[0] + 1 != t[1];
    assert Elems(sa + lb) == Elems(t);
    ListNormalisesTo(sa + lb, t, 10);
  }

  lemma AddListList(la: seq<int>, lb: seq<int>, t: seq<int>)
    requires la == [0, 3, 2, 8] && lb == [0, 4, 5] && t == [0, 2, 3, 4, 5, 8]
    ensures var a := Construct(IndexList(la), 10);
      var b := Construct(IndexList(lb), 10);
      a.Ok? && b.Ok? && Add(a.value, b.value) == Ok(Subset(IndexList(t), 10))
  {
    ListListOperands(la, lb);
    ListListUnion([0, 2, 3, 8], lb, t);
  }

  /** The operands of the list + slice example, once built. */
  lemma ListSliceOperands(la: seq<int>, slice: ListOrSlice)
    requires la == [0, 3, 2, 8] && slice == Sl(Some(1), Some(9), Some(3))
    ensures Construct(IndexList(la), 10) == Ok(Subset(IndexList([0, 2, 3, 8]), 10))
    ensures Construct(slice, 10) == Ok(Subset(slice, 10))
    ensures Members(Subset(slice, 10)) == [1, 4, 7]
  {
    var sa := [0, 2, 3, 8];
    assert Elems(la) == Elems(sa);
    assert sa[0] + 1 != sa[1];
    ListNormalisesTo(la, sa, 10);
    ThreeTerms(1, 9, 3);
  }

  lemma ListSliceUnion(sa: seq<int>, mb: seq<int>, t: seq<int>)
    requires sa == [0, 2, 3, 8] && mb == [1, 4, 7] && t == [0, 1, 2, 3, 4, 7, 8]
    ensures Construct(IndexList(sa + mb), 10) == Ok(Subset(IndexList(t), 10))
    ensures Construct(IndexList(mb + sa), 10) == Ok(Subset(IndexList(t), 10))
  {
    assert t[4] + 1 != t[5];
    assert Elems(sa + mb) == Elems(t);
    assert Elems(mb + sa) == Elems(t);
    ListNormalisesTo(sa + mb, t, 10);
    ListNormalisesTo(mb + sa, t, 10);
  }

  lemma AddListSlice(la: seq<int>, slice: ListOrSlice, t: seq<int>)
    requires la == [0, 3, 2, 8] && slice == Sl(Some(1), Some(9), Some(3)) && t == [0, 1, 2, 3, 4, 7, 8]
    ensures var a := Construct(IndexList(la), 10);
      var b := Construct(slice, 10);
      && a.Ok? && b.Ok?
      && Add(a.value, b.value) == Ok(Subset(IndexList(t), 10))
      && Add(b.value, a.value) == Ok(Subset(IndexList(t), 10))
  {
    ListSliceOperands(la, slice);
    var a := Subset(IndexList([0, 2, 3, 8]), 10);
    var b := Subset(slice, 10);
    AddCases(a, b);
    AddCases(b, a);
    ListSliceUnion([0, 2, 3, 8], [1, 4, 7], t);
  }

  lemma AddSliceSliceMerges()
    ensures Add(Subset(Sl(Some(0), Some(4), Some(1)), 10), Subset(Sl(Some(4), Some(7), Some(1)), 10))
         == Ok(Subset(Sl(Some(0), Some(7), Some(1)), 10))
    ensures Add(Subset(Sl(Some(4), Some(7), Some(1)), 10), Subset(Sl(Some(0), Some(4), Some(1)), 10))
         == Ok(Subset(Sl(Some(0), Some(7), Some(1)), 10))
    ensures Add(Subset(Sl(Some(0), Some(6), Some(1)), 10), Subset(Sl(Some(4), Some(7), Some(1)), 10))
         == Ok(Subset(Sl(Some(0), Some(7), Some(1)), 10))
    ensures Add(Subset(Sl(Some(4), Some(7), Some(1)), 10), Subset(Sl(Some(0), Some(6), Some(1)), 10))
         == Ok(Subset(Sl(Some(0), Some(7), Some(1)), 10))
  {
  }

  /** The operands of the slice + slice fallback example. */
  lemma FallbackOperands(a: Subset, b: Subset)
    requires a == Subset(Sl(Some(0), Some(8), Some(3)), 20)
    requires b == Subset(Sl(Some(12), Some(19), Some(2)), 20)
    ensures Valid(a) && Valid(b) && !Mergeable(a, b)
    ensures Members(a) == [0, 3, 6]
    ensures Members(b) == [12, 14, 16, 18]
  {
    ThreeTerms(0, 8, 3);
    ProgressionLength(12, 19, 2);
    ProgressionAt(12, 19, 2, 0);
    ProgressionAt(12, 19, 2, 1);
    ProgressionAt(12, 19, 2, 2);
    ProgressionAt(12, 19, 2, 3);
  }

  lemma FallbackUnion(ma: seq<int>, mb: seq<int>, t: seq<int>)
    requires ma == [0, 3, 6] && mb == [12, 14, 16, 18]
    requires t == [0, 3, 6, 12, 14, 16, 18]
    ensures Construct(IndexList(ma + mb), 20) == Ok(Subset(IndexList(t), 20))
  {
    assert t[0] + 1 != t[1];
    assert Elems(ma + mb) == Elems(t);
    ListNormalisesTo(ma + mb, t, 20);
  }

  lemma AddSliceSliceFallsBackToList(a: Subset, b: Subset, t: seq<int>)
    requires a == Subset(Sl(Some(0), Some(8), Some(3)), 20)
    requires b == Subset(Sl(Some(12), Some(19), Some(2)), 20)
    requires t == [0, 3, 6, 12, 14, 16, 18]
    ensures Valid(a) && Valid(b)
    ensures Add(a, b) == Ok(Subset(IndexList(t), 20))
  {
    FallbackOperands(a, b);
    AddCases(a, b);
    FallbackUnion([0, 3, 6], [12, 14, 16, 18], t);
  }
}
