/** Inputs on which the source as written departs from what its checks and
    messages evidently intend, next to the corrected behaviour the model uses. */
module Findings {
  import opened Wrappers
  import opened Progressions
  import opened Subsets

  /** The slice sanity check rejects a negative step but not a zero one, so
      the stored subset has no size: `num_examples` divides by the step. */
  lemma ZeroStepAcceptedAsWritten()
    ensures ConstructAsWritten(SliceOf(Slice(None, None, Some(0))), 5).Ok?
    ensures ConstructAsWritten(SliceOf(Slice(None, None, Some(0))), 5).value.listOrSlice.slice.step == Some(0)
    ensures !Valid(ConstructAsWritten(SliceOf(Slice(None, None, Some(0))), 5).value)
    ensures NumExamplesAsWritten(ConstructAsWritten(SliceOf(Slice(None, None, Some(0))), 5).value) == Err(DivisionByZero)
    ensures Construct(SliceOf(Slice(None, None, Some(0))), 5) == Err(InvalidRange(ZeroStep))
  {
  }

  /** With the start left out, the "start >= stop" test is skipped, so
      `slice(None, 0, None)` builds a subset with no example. Adding it to a
      list subset, or to a slice it cannot be merged with, expands it to
      `list(range(0))`, which the request check rejects. */
  lemma EmptySliceAcceptedAsWritten()
    ensures ConstructAsWritten(SliceOf(Slice(None, Some(0), None)), 10) == Ok(Subset(SliceOf(Slice(None, Some(0), None)), 10))
    ensures SliceToNumericalArgs(Slice(None, Some(0), None), 10) == (0, 0, 1)
    ensures NumExamplesAsWritten(Subset(SliceOf(Slice(None, Some(0), None)), 10)) == Ok(0)
    ensures SanityCheck(IndexList(Iota(0)), 0) == Some(EmptyList)
    ensures Construct(SliceOf(Slice(None, Some(0), None)), 10) == Err(InvalidRange(EmptySubset))
  {
  }

  /** `subset_of` on the slice subset `0, 3, 6, 9` of ten examples, for every
      other example: the translated slice `slice(0, 12, 6)` overshoots the
      universe and the constructor rejects it, although it selects `0, 6`. */
  lemma SubsetOfStopOverflowAsWritten()
    ensures Valid(Subset(SliceOf(Slice(Some(0), Some(10), Some(3))), 10))
    ensures GetItem(Subset(SliceOf(Slice(Some(0), Some(10), Some(3))), 10), SliceOf(Slice(None, None, Some(2))))
         == Ok(SliceOf(Slice(Some(0), Some(12), Some(6))))
    ensures SubsetOfAsWritten(Subset(SliceOf(Slice(Some(0), Some(10), Some(3))), 10), SliceOf(Slice(None, None, Some(2))))
         == Err(InvalidRange(StopTooLarge))
    ensures SubsetOf(Subset(SliceOf(Slice(Some(0), Some(10), Some(3))), 10), SliceOf(Slice(None, None, Some(2))))
         == Ok(Subset(SliceOf(Slice(Some(0), Some(10), Some(6))), 10))
  {
    var parent := Subset(SliceOf(Slice(Some(0), Some(10), Some(3))), 10);
    assert NumExamples(parent) == 4;
  }
}
