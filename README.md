# Fuel `Subset`: index ranges over a dataset

Fuel describes which examples of a dataset an operation touches with a
`Subset`. A subset is a Python list of indices or a Python `slice`, together
with the number of examples of the whole dataset (its *universe*). This
project models the `Subset` algebra of `fuel/utils.py` and proves properties
of it:

- construction, with the sanity checks and the list normalisation that sorts,
  removes duplicates and turns a contiguous run into a slice;
- `num_examples` and `is_list`;
- relative indexing (`__getitem__`), which turns a request in the subset's own
  coordinates into a request against the whole dataset;
- `subset_of`, a subset of a subset;
- the union `__add__`;
- reading a subset's examples from a backend (`index_within_subset`), including
  the sort-read-scatter workaround for backends that only accept sorted index
  lists (`safe_unsorted_fancy_index`) and the element-by-element fallback
  (`iterable_fancy_indexing`).

The files:

- `wrappers.dfy` defines `Option` and `Result`.
- `progressions.dfy` defines arithmetic progressions (Python's `range`) and sequence helpers.
- `sorting.dfy` models `sorted(set(xs))` and `numpy.argsort`.
- `subset.dfy` covers construction, `num_examples`, `__getitem__` and `subset_of`.
- `union.dfy` covers `__add__`.
- `fancy_indexing.dfy` covers reads from a backend.
- `findings.dfy` holds the counterexamples listed under Findings.
- `worked_examples.dfy` holds the expectations of `tests/test_utils.py`.

How Python is represented:

- A Python ValueError becomes an `Err` carrying the reason.
- `Members(s)` is the meaning of a subset: the absolute indices it selects, in increasing order.
- A backend is a sequence of opaque rows.
- Its kind (`InMemoryArray`, `SortedOnlyStore` or `GenericSequence`) and a flag stand for the source's `isinstance` tests on numpy arrays and HDF5 datasets and for `safe_hdf5_indexing`.

The source's own text promises more than its checks enforce, and the model follows the code:

- The comment in `num_examples` (`fuel/utils.py:259-262`) assumes `start < stop`, "which is enforced in `_slice_subset_sanity_check`". The emptiness message (`fuel/utils.py:304-306`) says an empty slice "would be an empty subset". But the check tests `start >= stop` only when both bounds are given. It rejects a negative step, yet never a zero one, although `num_examples` divides by the step. `Subsets.ConstructAsWritten` is the code as written, and `Subsets.NumExamplesAsWritten` is its count. `Subsets.Construct` also rejects a zero step and a slice that is empty once its bounds are defaulted. The rest of the model uses `Construct` (see Findings).

`SliceToNumericalArgs`, `ListSanityCheck`, `SliceSanityCheck` and `SanityCheck` transcribe `slice_to_numerical_args` and the four `_…_sanity_check` methods. They are the definitions the contracts below are stated in, so they have no contract of their own. The request checks (`fuel/utils.py:308-346`) apply the same tests as the construction checks (`fuel/utils.py:270-306`), against `num_examples` instead of the universe. The model therefore uses one definition for both and tags the error `InvalidRequest` or `InvalidRange`.

## Model

| member | source | states |
|---|---|---|
| Progressions.ProgressionLength | fuel/utils.py:251-268 | the number of terms of `range(start, stop, step)` is `(stop - start - 1) // step + 1` when `start < stop`, else 0 |
| Progressions.ProgressionAffine | fuel/utils.py:107-114 | the progression with start `o + s*a`, stop `o + s*b` and step `s*c` is the image under `x -> o + s*x` of the progression `(a, b, c)`: composing two slices is exact |
| Sorting.SortedUnique | fuel/utils.py:350 | `sorted(set(xs))` is strictly increasing and has exactly the values of `xs` |
| Sorting.StrictlyIncreasingUnique | fuel/utils.py:350 | two strictly increasing lists with the same values are equal, so the normal form is unique |
| Sorting.ContiguousIsUnitProgression | fuel/utils.py:352-355 | a contiguous sorted run is `range(first, last + 1)`, so the slice `_beautify_list` substitutes selects the same indices |
| Sorting.ArgSort | fuel/utils.py:151 | `numpy.argsort`: the result is a permutation of `0 .. len-1` that lists the positions in order of their keys |
| Sorting.ArgSortSorts | fuel/utils.py:151-154 | the request read in argsort order, `numpy.array(request)[indices]`, is sorted, so a sorted-only backend accepts it |
| Subsets.RangeMeaning | fuel/utils.py:270-306 | a list or slice that passes the sanity check against `n` selects only indices in `[0, n)` |
| Subsets.Members | fuel/utils.py:41-46 | a valid subset selects a non-empty, strictly increasing set of indices inside the universe |
| Subsets.IsList | fuel/utils.py:246-249 | a list-based subset has at least two examples and is never a contiguous run, which would have been stored as a slice |
| Subsets.NumExamples | fuel/utils.py:251-268 | `num_examples` equals the number of indices the subset selects, for lists and for slices |
| Progressions.FloorDiv | fuel/utils.py:268 | Python's `//` rounds towards minus infinity: the quotient times the divisor lies within one divisor of the dividend, on the dividend's side |
| Subsets.NumExamplesAsWritten | fuel/utils.py:251-268 | `num_examples` on any stored descriptor: it raises exactly for a zero slice step, agrees with `NumExamples` on a valid subset, and for a positive step is positive exactly when the defaulted bounds are not empty |
| Subsets.SliceMembers | fuel/utils.py:251-268 | the k-th example of a slice subset is `start + k*step < stop`, and the next term would reach `stop` |
| Subsets.BeautifyList | fuel/utils.py:348-357 | a returned list is strictly increasing, has exactly the input's values and is not contiguous; a returned slice has no step and selects exactly the input's values |
| Subsets.BeautifyListMeaning | fuel/utils.py:348-357 | normalising a checked list gives a valid subset holding exactly its distinct values in order; the result is a slice exactly when they are contiguous |
| Subsets.ConstructAsWritten | fuel/utils.py:41-46 | the constructor as written fails exactly when the sanity check does, with its reason; a list it accepts gives a valid subset of the list's sorted distinct values; a slice it accepts is stored unchanged |
| Subsets.Construct | fuel/utils.py:41-46 | a list is accepted exactly when it passes the list check, and is stored as `sorted(set(l))` or as the equivalent slice; a slice is accepted exactly when it passes the slice check, has a non-zero step and is non-empty, and it is stored unchanged; every subset built is valid; on success the result agrees with the code as written |
| Subsets.ListConstructionErrors | fuel/utils.py:276-286 | a list is rejected exactly when it is empty, holds a negative index or holds an index not below the universe; an accepted list selects exactly its own values |
| Subsets.ConstructIdempotent | fuel/utils.py:41-46 | rebuilding a valid subset from its own descriptor returns it unchanged |
| Subsets.PySlice | fuel/utils.py:104-106 | slicing a Python list fails exactly when the step is 0 |
| Subsets.GetItem | fuel/utils.py:91-114 | a request that fails the request check is rejected with that reason; a checked request fails only for a step-0 slice on a list subset; the full slice returns the subset's own descriptor; a list request yields a list of the same length; a slice result has non-negative arguments |
| Subsets.GetItemMeaning | fuel/utils.py:91-114 | for a well-formed request, the translated request selects exactly the subset's members at the requested positions, in request order |
| Subsets.SubsetOfAsWritten | fuel/utils.py:116-129 | `subset_of` as written passes translation errors through, keeps the parent's universe, and whenever it builds a valid subset the corrected `SubsetOf` builds the same one |
| Subsets.SubsetOf | fuel/utils.py:116-129 | a derived subset is valid and has the parent's universe |
| Subsets.ConstructFromIndices | fuel/utils.py:116-129 | a translated list of in-range indices builds a subset exactly when it is non-empty, and the subset holds its sorted distinct values |
| Subsets.ConstructFromProgression | fuel/utils.py:116-129 | a translated slice whose terms lie in the universe builds a subset, once its stop is cut to the universe, exactly when it is non-empty, and the subset holds those terms |
| Subsets.SubsetOfRejects | fuel/utils.py:116-129 | a malformed request, or one that selects nothing, yields no subset |
| Subsets.SubsetOfMeaning | fuel/utils.py:116-129 | `subset_of` succeeds exactly when the request is well formed and selects something, and the result holds the parent's members at the requested positions, sorted and without duplicates |
| Union.Expand | fuel/utils.py:58-59 | `s[list(range(s.num_examples))]` is the list of the subset's members |
| Union.Add | fuel/utils.py:48-52 | adding subsets of different universes raises |
| Union.AddCases | fuel/utils.py:53-89 | two step-1 slices that overlap or touch are merged into one slice; every other pair is rebuilt from the concatenated member lists |
| Union.MergedUnitSlices | fuel/utils.py:77-83 | the merged slice from the smaller start to the larger stop covers exactly the indices of the two step-1 slices |
| Union.MergedSortedUnion | fuel/utils.py:77-83 | that merged slice lists the sorted union of the two slices' indices |
| Union.MergeIsUnion | fuel/utils.py:77-83 | the merged slice is accepted by construction and holds the sorted union of both operands |
| Union.AddIsUnion | fuel/utils.py:48-89 | the sum of two subsets of one universe always exists, is valid, and holds exactly the examples of either operand, sorted and without duplicates |
| Union.ConstructSameValues | fuel/utils.py:54-56 | rebuilding from two lists with the same values gives the same subset, whatever their order and duplicates |
| Union.AddCommutes | fuel/utils.py:48-89 | `a + b == b + a`, down to the stored descriptor, including the incompatible case |
| FancyIndexing.FancyIndex | fuel/utils.py:223-224 | a native fancy read succeeds exactly when every requested index is in bounds, and returns the rows at those indices in request order |
| FancyIndexing.IterableFancyIndexing | fuel/utils.py:360-364 | reading element by element gives exactly what a native fancy read gives, including its failures |
| FancyIndexing.SortedOnlyRead | fuel/utils.py:223-224 | an HDF5 read without the workaround refuses a list that is not sorted, and otherwise returns what an unrestricted fancy read returns |
| FancyIndexing.SafeUnsortedFancyIndex | fuel/utils.py:131-157 | the sort-read-scatter workaround returns exactly the rows an unrestricted fancy read returns in request order, failures included |
| FancyIndexing.Resolve | fuel/utils.py:201-204 | an integer request is accepted exactly when it lies in `[0, num_examples)`, and then becomes the subset's member at that position; a list or slice request stays a range; a translated slice has non-negative arguments |
| FancyIndexing.Read | fuel/utils.py:205-207 | a direct `indexable[request]`: an integer reads one row when in bounds, a list is a fancy read, a slice fails exactly on a zero step, and ranges return rows |
| FancyIndexing.IndexWithinSubset | fuel/utils.py:178-228 | for every backend kind, the read returns what an unrestricted read of the translated request returns; the only exception is a sorted-only backend read without the workaround, which refuses an unsorted list; translation errors pass through |
| FancyIndexing.ReadWithinSubset | fuel/utils.py:178-228 | on the dataset the subset belongs to, a well-formed request reads the subset's examples at the requested positions, in request order; a rejected request reads nothing |
| Findings.ZeroStepAcceptedAsWritten | fuel/utils.py:288-306 | the code as written accepts `slice(None, None, 0)`, leaving an invalid subset whose `num_examples` raises a division by zero; the corrected construction rejects it |
| Findings.EmptySliceAcceptedAsWritten | fuel/utils.py:302-306 | the code as written accepts the empty `slice(None, 0, None)`, whose `num_examples` is 0 and whose expansion `list(range(0))` is an empty request the request check rejects; the corrected construction rejects it |
| Findings.SubsetOfStopOverflowAsWritten | fuel/utils.py:116-129 | `subset_of` (code as written) rejects a request that selects examples 0 and 6 of ten; the corrected `SubsetOf` returns `slice(0, 10, 6)` |
| WorkedExamples.ConstructionRejections | tests/test_utils.py:15-41 | negative, too-large and empty lists, negative slice arguments, a too-large stop and a start after the stop are rejected with the matching reason |
| WorkedExamples.ListNumExamples | tests/test_utils.py:43-44 | `Subset([0, 3, 8, 13], 15)` has 4 examples |
| WorkedExamples.SliceNumExamples | tests/test_utils.py:46-49 | the slice subsets have 15, 5 and 5 examples |
| WorkedExamples.IsListExamples | tests/test_utils.py:55-57 | a slice subset is not list-based; `Subset([0, 1, 3], 4)` is |
| WorkedExamples.ListDuplicatesRemoved | tests/test_utils.py:59-60 | `[0, 3, 3, 5]` is stored as `[0, 3, 5]` |
| WorkedExamples.ListSorted | tests/test_utils.py:59-61 | `[0, 3, 1, 5]` is stored as `[0, 1, 3, 5]` |
| WorkedExamples.ListNormalisesTo | fuel/utils.py:348-357 | a checked list whose distinct sorted values form the non-contiguous `t` is stored as `t` |
| WorkedExamples.ContiguousListBecomesSlice | tests/test_utils.py:63-64 | `[1, 2, 3]` is stored as `slice(1, 4, None)` |
| WorkedExamples.GetItemOfList | tests/test_utils.py:66-70 | list and slice requests on a list subset give `[7, 5, 10]` and `[2, 7]` |
| WorkedExamples.GetItemOfSlice | tests/test_utils.py:72-77 | list and slice requests on a slice subset give `[10, 7, 13]` and `slice(4, 13, 6)` |
| WorkedExamples.AddIncompatible | tests/test_utils.py:79-83 | adding subsets of universes 10 and 11 is rejected |
| WorkedExamples.AddListList | tests/test_utils.py:85-88 | list + list gives `[0, 2, 3, 4, 5, 8]` |
| WorkedExamples.AddListSlice | tests/test_utils.py:90-98 | list + slice and slice + list give `[0, 1, 2, 3, 4, 7, 8]` |
| WorkedExamples.AddSliceSliceMerges | tests/test_utils.py:100-114 | touching or overlapping step-1 slices merge into `slice(0, 7, 1)`, in either order |
| WorkedExamples.AddSliceSliceFallsBackToList | tests/test_utils.py:116-121 | two slices that cannot be merged give the list `[0, 3, 6, 12, 14, 16, 18]` |

## Left out

- `find_in_data_path`, `lazy_property_factory` and `do_not_pickle_attributes` are not modelled: they do file-system lookups and pickling, not index arithmetic. The converters, downloaders, datasets and `fuel/exceptions.py` are not part of this model.
- Arrays are modelled as one-dimensional sequences of opaque rows. The result buffer `numpy.empty` allocates stands as `new T[|request|]`; its uninitialised contents, its trailing dimensions and its dtype are not modelled.
- FancyIndexing.SafeUnsortedFancyIndex: the sorted-only backend is modelled as accepting any non-decreasing list. A real HDF5 dataset also refuses repeated indices, so the model is more permissive there: the request checks accept a list with a repeated position such as `[i, i]`, `IndexWithinSubset` on a sorted-only store then reads two rows, while the source would pass that sorted but repeated list to HDF5 at fuel/utils.py:154 and fail. `numpy.argsort` is modelled by an insertion sort whose contract leaves the order among equal keys unspecified; whatever that order, repeated indices read the same rows.
- Python's wrap-around for negative indices is not modelled. The request checks reject negative requests, so translated indices are never negative; a backend read outside `[0, len)` is a `BackendFault`.
- The `isinstance` and `hasattr` dispatch over Python types is replaced by the `Request`, `Absolute` and `Backend` datatypes. Lists are always Python lists, and other iterables passed as ranges are not modelled.
- A `Subset` is an immutable value. Assigning to `list_or_slice` or `original_num_examples` after construction is not modelled.
- Subsets.GetItem: a step-0 slice request on a slice subset yields a step-0 slice, as the code does. The model does not go on to read such a slice; `Read`'s `PySlice` rejects it.

## Findings

| source | as written | input that shows it | evidently intended | confidence | as-written member | corrected member |
|---|---|---|---|---|---|---|
| fuel/utils.py:288-306 | the slice check rejects a negative step but never a zero one, so a step of 0 is accepted and `num_examples` then divides by zero | `Subset(slice(None, None, 0), 5)` | a zero step is rejected at construction, since `num_examples` (fuel/utils.py:263-268) divides by the step | not executed | Findings.ZeroStepAcceptedAsWritten | Subsets.Construct |
| fuel/utils.py:302-306 | emptiness is tested only when start and stop are both given, so a slice whose defaulted bounds are empty is accepted; the subset has 0 examples, and adding it to a list subset, or to a slice it cannot be merged with, raises | `Subset(slice(None, 0, None), 10)` | construction rejects every empty subset: the message at fuel/utils.py:304-306 says "it would be an empty subset", and the comment at 259-262 assumes `start < stop` | not executed | Findings.EmptySliceAcceptedAsWritten | Subsets.Construct |
| fuel/utils.py:116-129 | `subset_of` passes `subset[list_or_slice]` straight to the constructor; for a slice parent the translated stop `start + step * stop` can exceed the universe, and construction raises | `Subset.subset_of(Subset(slice(0, 10, 3), 10), slice(None, None, 2))` gives `slice(0, 12, 6)`, rejected | the derived subset of examples 0 and 6 is built | not executed | Findings.SubsetOfStopOverflowAsWritten | Subsets.SubsetOf |
