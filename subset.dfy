/** The `Subset` class of fuel/utils.py: a description of which examples of a
    dataset with `originalNumExamples` examples are in play, either as a list of
    indices or as a Python slice. Subsets are immutable values; every operation
    builds a new one. */
module Subsets {
  import opened Wrappers
  import opened Progressions
  import opened Sorting

  /** A Python `slice`; an absent bound is Python's `None`. */
  datatype Slice = Slice(start: Option<int>, stop: Option<int>, step: Option<int>)

  /** The `list_or_slice` attribute: a Python list of indices or a slice. */
  datatype ListOrSlice = IndexList(indices: seq<int>) | SliceOf(slice: Slice)

  datatype Subset = Subset(listOrSlice: ListOrSlice, originalNumExamples: nat)

  /** Why a sanity check raised ValueError. The last two are raised only by the
      corrected construction `Construct`. */
  datatype Reason =
    | EmptyList | NegativeIndex | IndexTooLarge
    | NegativeSliceArgument | StopTooLarge | StartTooLarge | EmptySlice
    | ZeroStep | EmptySubset

  datatype Error =
    | InvalidRange(reason: Reason)     // ValueError from the constructor's sanity check
    | InvalidRequest(reason: Reason)   // ValueError from the request sanity check
    | IncompatibleRange                // ValueError from __add__: different original sizes
    | SliceStepZero                    // ValueError from Python: a slice step of zero
    | UnsortedIndexing                 // a sorted-only backend refused an unsorted list
    | BackendFault                     // the backend has no such index
    | DivisionByZero                   // ZeroDivisionError from Python's `//`

  /** `slice(None, None, None)`, the request for the whole subset. */
  const FullSlice: ListOrSlice := SliceOf(Slice(None, None, None))

  /** `slice_to_numerical_args`: absent start is 0, absent stop is
      `numExamples`, absent step is 1. */
  function SliceToNumericalArgs(sl: Slice, numExamples: int): (int, int, int) {
    (sl.start.GetOr(0), sl.stop.GetOr(numExamples), sl.step.GetOr(1))
  }

  predicate NonNegativeArgs(sl: Slice) {
    && (sl.start.Some? ==> sl.start.value >= 0)
    && (sl.stop.Some? ==> sl.stop.value >= 0)
    && (sl.step.Some? ==> sl.step.value >= 0)
  }

  // -----------------------------------------------------------------------
  // Sanity checks. The construction checks and the request checks of the
  // source are the same tests against a different bound (the original
  // number of examples, or the number of examples of the subset).

  /** `_list_subset_sanity_check` / `_list_request_sanity_check`;
      `max(indices) >= n` is written as "some index is >= n". */
  function ListSanityCheck(indices: seq<int>, n: int): Option<Reason> {
    if |indices| == 0 then Some(EmptyList)
    else if exists i | 0 <= i < |indices| :: indices[i] < 0 then Some(NegativeIndex)
    else if exists i | 0 <= i < |indices| :: indices[i] >= n then Some(IndexTooLarge)
    else None
  }

  /** `_slice_subset_sanity_check` / `_slice_request_sanity_check`. */
  function SliceSanityCheck(sl: Slice, n: int): Option<Reason> {
    if !NonNegativeArgs(sl) then Some(NegativeSliceArgument)
    else if sl.stop.Some? && sl.stop.value > n then Some(StopTooLarge)
    else if sl.start.Some? && sl.start.value >= n then Some(StartTooLarge)
    else if sl.start.Some? && sl.stop.Some? && sl.start.value >= sl.stop.value then Some(EmptySlice)
    else None
  }

  function SanityCheck(r: ListOrSlice, n: int): Option<Reason> {
    match r
    case IndexList(l) => ListSanityCheck(l, n)
    case SliceOf(sl) => SliceSanityCheck(sl, n)
  }

  // -----------------------------------------------------------------------
  // Meaning of a descriptor: the indices it selects, in order

  /** A list, or a slice whose step (after defaulting) is positive. */
  predicate HasMeaning(r: ListOrSlice, n: int) {
    r.IndexList? || SliceToNumericalArgs(r.slice, n).2 > 0
  }

  /** The indices a list or slice selects from a sequence of length `n`. A
      descriptor that passes the sanity check against `n` selects indices of
      `[0, n)` only. */
  function RangeMeaning(r: ListOrSlice, n: int): (idx: seq<int>)
    requires HasMeaning(r, n)
    ensures SanityCheck(r, n) == None ==> forall k :: 0 <= k < |idx| ==> 0 <= idx[k] < n
  {
    match r
    case IndexList(l) => l
    case SliceOf(sl) =>
      var (start, stop, step) := SliceToNumericalArgs(sl, n);
      Progression(start, stop, step)
  }

  /** A request that passes the request checks and whose step is not zero. */
  predicate RequestOk(key: ListOrSlice, n: int) {
    SanityCheck(key, n) == None && (key.SliceOf? ==> key.slice.step != Some(0))
  }

  // -----------------------------------------------------------------------
  // Well-formed subsets

  /** What construction guarantees: a list is non-empty, strictly increasing,
      inside the universe and not a contiguous run (that would have become a
      slice); a slice passes the sanity check, has a positive step and is not
      empty. */
  predicate Valid(s: Subset) {
    var n := s.originalNumExamples;
    match s.listOrSlice
    case IndexList(l) =>
      && |l| > 0
      && StrictlyIncreasing(l)
      && (forall i :: 0 <= i < |l| ==> 0 <= l[i] < n)
      && !Contiguous(l)
    case SliceOf(sl) =>
      && SliceSanityCheck(sl, n) == None
      && var (start, stop, step) := SliceToNumericalArgs(sl, n);
      step > 0 && start < stop
  }

  /** The absolute indices of the examples in the subset, in increasing order. */
  function Members(s: Subset): (m: seq<int>)
    requires Valid(s)
    ensures |m| > 0 && StrictlyIncreasing(m)
    ensures forall k :: 0 <= k < |m| ==> 0 <= m[k] < s.originalNumExamples
  {
    match s.listOrSlice
    case IndexList(l) => l
    case SliceOf(sl) =>
      var (start, stop, step) := SliceToNumericalArgs(sl, s.originalNumExamples);
      ProgressionIncreasing(start, stop, step);
      Progression(start, stop, step)
  }

  /** `is_list`. A list-based subset never describes a contiguous run. */
  function IsList(s: Subset): (b: bool)
    requires Valid(s)
    ensures b ==> |Members(s)| > 1 && !Contiguous(Members(s))
  {
    s.listOrSlice.IndexList?
  }

  /** `num_examples`: the list's length, or `((stop - start) - 1) // step + 1`
      for a slice; it counts the examples of the subset. */
  function NumExamples(s: Subset): (r: nat)
    requires Valid(s)
    ensures r == |Members(s)|
  {
    match s.listOrSlice
    case IndexList(l) => |l|
    case SliceOf(sl) =>
      var (start, stop, step) := SliceToNumericalArgs(sl, s.originalNumExamples);
      ProgressionLength(start, stop, step);
      (stop - start - 1) / step + 1
  }

  /** `num_examples` as written, on any stored descriptor: a slice with a zero
      step makes the floor division raise. On a valid subset it is
      `NumExamples`; on a slice with a positive step it is positive exactly
      when the defaulted bounds are not empty. */
  function NumExamplesAsWritten(s: Subset): (r: Result<int, Error>)
    ensures Valid(s) ==> r == Ok(NumExamples(s))
    ensures s.listOrSlice.SliceOf? ==>
      (r == Err(DivisionByZero) <==> SliceToNumericalArgs(s.listOrSlice.slice, s.originalNumExamples).2 == 0)
    ensures s.listOrSlice.SliceOf? && r.Ok? ==>
      var (start, stop, step) := SliceToNumericalArgs(s.listOrSlice.slice, s.originalNumExamples);
      step > 0 ==> (r.value > 0 <==> start < stop)
  {
    match s.listOrSlice
    case IndexList(l) => Ok(|l|)
    case SliceOf(sl) =>
      var (start, stop, step) := SliceToNumericalArgs(sl, s.originalNumExamples);
      if step == 0 then Err(DivisionByZero)
      else Ok(FloorDiv(stop - start - 1, step) + 1)
  }

  /** A slice subset holds exactly the terms `start + k * step` below `stop`. */
  lemma SliceMembers(s: Subset, k: int)
    requires Valid(s) && s.listOrSlice.SliceOf?
    requires 0 <= k < NumExamples(s)
    ensures var (start, stop, step) := SliceToNumericalArgs(s.listOrSlice.slice, s.originalNumExamples);
      && Members(s)[k] == start + k * step < stop
      && start + NumExamples(s) * step >= stop
  {
    var (start, stop, step) := SliceToNumericalArgs(s.listOrSlice.slice, s.originalNumExamples);
    ProgressionAt(start, stop, step, k);
    ProgressionEnd(start, stop, step);
  }

  // -----------------------------------------------------------------------
  // Construction

  /** `_beautify_list`: sort and deduplicate, and turn a contiguous run into
      `slice(first, last + 1, None)`. */
  function BeautifyList(indices: seq<int>): (r: ListOrSlice)
    requires |indices| > 0
    ensures r.IndexList? ==>
      StrictlyIncreasing(r.indices) && !Contiguous(r.indices) &&
      forall x :: x in r.indices <==> x in indices
    ensures r.SliceOf? ==>
      r.slice.step == None && r.slice.start.Some? && r.slice.stop.Some? &&
      forall x :: x in indices <==> r.slice.start.value <= x < r.slice.stop.value
  {
    var u := SortedUnique(indices);
    assert indices[0] in u;
    if Contiguous(u) then
      ContiguousIsUnitProgression(u);
      assert forall x :: x in u <==> u[0] <= x < u[|u| - 1] + 1 by {
        forall x ensures x in u <==> u[0] <= x < u[|u| - 1] + 1 {
          UnitProgressionElems(u[0], u[|u| - 1] + 1, x);
        }
      }
      SliceOf(Slice(Some(u[0]), Some(u[|u| - 1] + 1), None))
    else IndexList(u)
  }

  /** Normalisation keeps the index set: the beautified list selects exactly
      the distinct indices of the raw list, in increasing order, and it is a
      slice precisely when they are contiguous. */
  lemma BeautifyListMeaning(indices: seq<int>, n: nat)
    requires ListSanityCheck(indices, n) == None
    ensures Valid(Subset(BeautifyList(indices), n))
    ensures Members(Subset(BeautifyList(indices), n)) == SortedUnique(indices)
    ensures BeautifyList(indices).SliceOf? <==> Contiguous(SortedUnique(indices))
  {
    var u := SortedUnique(indices);
    assert indices[0] in u;
    forall k | 0 <= k < |u| ensures 0 <= u[k] < n {
      assert u[k] in indices;
    }
    if Contiguous(u) {
      ContiguousIsUnitProgression(u);
      var sl := Slice(Some(u[0]), Some(u[|u| - 1] + 1), None);
      assert BeautifyList(indices) == SliceOf(sl);
      assert SliceSanityCheck(sl, n) == None;
      assert SliceToNumericalArgs(sl, n) == (u[0], u[|u| - 1] + 1, 1);
    } else {
      assert BeautifyList(indices) == IndexList(u);
    }
  }

  /** `Subset.__init__` as written: the sanity check, then `_beautify_list`
      for lists. It accepts a zero step and slices that describe no example. */
  function ConstructAsWritten(r: ListOrSlice, n: nat): (res: Result<Subset, Error>)
    ensures res.Err? <==> SanityCheck(r, n).Some?
    ensures res.Err? ==> res.error == InvalidRange(SanityCheck(r, n).value)
    ensures res.Ok? ==> res.value.originalNumExamples == n
    ensures res.Ok? && r.IndexList? ==> Valid(res.value) && Members(res.value) == SortedUnique(r.indices)
    ensures res.Ok? && r.SliceOf? ==> res.value.listOrSlice == r
  {
    match SanityCheck(r, n)
    case Some(why) => Err(InvalidRange(why))
    case None =>
      if r.IndexList? then
        BeautifyListMeaning(r.indices, n);
        Ok(Subset(BeautifyList(r.indices), n))
      else Ok(Subset(r, n))
  }

  /** `Subset.__init__`, with the two gaps of the slice check closed: a zero
      step, and a slice that is empty once its bounds are defaulted. Every
      subset it builds is valid; a list is normalised, a slice is kept as given. */
  function Construct(r: ListOrSlice, n: nat): (res: Result<Subset, Error>)
    ensures res.Ok? ==> Valid(res.value) && res.value.originalNumExamples == n
    ensures r.IndexList? ==> (res.Ok? <==> ListSanityCheck(r.indices, n) == None)
    ensures r.IndexList? && res.Ok? ==> Members(res.value) == SortedUnique(r.indices)
    ensures r.IndexList? && res.Ok? ==> (IsList(res.value) <==> !Contiguous(SortedUnique(r.indices)))
    ensures r.SliceOf? ==> (res.Ok? <==>
      SliceSanityCheck(r.slice, n) == None &&
      var (start, stop, step) := SliceToNumericalArgs(r.slice, n); step != 0 && start < stop)
    ensures r.SliceOf? && res.Ok? ==> res.value.listOrSlice == r
    ensures res.Ok? ==> ConstructAsWritten(r, n) == res
  {
    var s :- ConstructAsWritten(r, n);
    match r
    case IndexList(l) =>
      BeautifyListMeaning(l, n);
      Ok(s)
    case SliceOf(sl) =>
      var (start, stop, step) := SliceToNumericalArgs(sl, n);
      if step == 0 then Err(InvalidRange(ZeroStep))
      else if start >= stop then Err(InvalidRange(EmptySubset))
      else Ok(s)
  }

  /** Construction errors on lists: empty, a negative index or an index not
      below the original number of examples; otherwise every stored index lies
      in the universe. */
  lemma ListConstructionErrors(l: seq<int>, n: nat)
    ensures Construct(IndexList(l), n).Err? <==>
      |l| == 0 || (exists i :: 0 <= i < |l| && l[i] < 0) || (exists i :: 0 <= i < |l| && l[i] >= n)
    ensures Construct(IndexList(l), n).Ok? ==>
      forall x :: x in Members(Construct(IndexList(l), n).value) <==> x in l
  {
    if Construct(IndexList(l), n).Ok? {
      SortedUniqueElems(l);
    }
  }

  /** Normalisation is idempotent: rebuilding a valid subset from its own
      descriptor gives it back unchanged. */
  lemma ConstructIdempotent(s: Subset)
    requires Valid(s)
    ensures Construct(s.listOrSlice, s.originalNumExamples) == Ok(s)
  {
    if s.listOrSlice.IndexList? {
      var l := s.listOrSlice.indices;
      SortedUniqueOfIncreasing(l);
      assert !(exists i | 0 <= i < |l| :: l[i] < 0);
      assert !(exists i | 0 <= i < |l| :: l[i] >= s.originalNumExamples);
    }
  }

  // -----------------------------------------------------------------------
  // Relative indexing (`__getitem__`)

  /** Python's `xs[k]` for a slice `k` with non-negative arguments: the stop is
      cut down to `len(xs)`, and a zero step raises ValueError. */
  function PySlice<X>(xs: seq<X>, k: Slice): (r: Result<seq<X>, Error>)
    requires NonNegativeArgs(k)
    ensures r.Err? <==> k.step == Some(0)
  {
    var (start, stop, step) := SliceToNumericalArgs(k, |xs|);
    if step == 0 then Err(SliceStepZero)
    else Ok(Gather(xs, Progression(start, Min(stop, |xs|), step)))
  }

  /** `Subset.__getitem__`: translate a request in the subset's own coordinates
      (`0 .. num_examples - 1`) into the corresponding request against the
      whole dataset. The request is checked against `num_examples`. */
  function GetItem(s: Subset, key: ListOrSlice): (r: Result<ListOrSlice, Error>)
    requires Valid(s)
    ensures SanityCheck(key, NumExamples(s)).Some? ==>
      r == Err(InvalidRequest(SanityCheck(key, NumExamples(s)).value))
    ensures SanityCheck(key, NumExamples(s)) == None ==>
      (r.Err? <==> s.listOrSlice.IndexList? && key.SliceOf? && key.slice.step == Some(0))
    ensures key == FullSlice ==> r == Ok(s.listOrSlice)
    ensures key.IndexList? && r.Ok? ==> r.value.IndexList? && |r.value.indices| == |key.indices|
    ensures r.Ok? && r.value.SliceOf? ==> NonNegativeArgs(r.value.slice)
  {
    var num := NumExamples(s);
    match SanityCheck(key, num)
    case Some(why) => Err(InvalidRequest(why))
    case None =>
      if key == FullSlice then Ok(s.listOrSlice)
      else
        match key
        case IndexList(ks) =>
          assert RangeMeaning(key, num) == ks;
          (match s.listOrSlice
           case IndexList(l) => Ok(IndexList(Gather(l, ks)))
           case SliceOf(sl) =>
             var (start, _, step) := SliceToNumericalArgs(sl, s.originalNumExamples);
             Ok(IndexList(Affine(start, step, ks))))
        case SliceOf(k) =>
          match s.listOrSlice
          case IndexList(l) =>
            var rows :- PySlice(l, k);
            Ok(IndexList(rows))
          case SliceOf(sl) =>
            var (start, _, step) := SliceToNumericalArgs(sl, s.originalNumExamples);
            var (kStart, kStop, kStep) := SliceToNumericalArgs(k, num);
            assert step >= 0 && kStart >= 0 && kStop >= 0 && kStep >= 0;
            MulGrows(kStart, step);
            MulGrows(kStop, step);
            MulGrows(kStep, step);
            Ok(SliceOf(Slice(Some(start + step * kStart), Some(start + step * kStop), Some(step * kStep))))
  }

  /** The request translates exactly: the indices the result selects are the
      subset's members at the requested positions, in request order. */
  lemma GetItemMeaning(s: Subset, key: ListOrSlice)
    requires Valid(s) && RequestOk(key, NumExamples(s))
    ensures GetItem(s, key).Ok?
    ensures HasMeaning(GetItem(s, key).value, s.originalNumExamples)
    ensures RangeMeaning(GetItem(s, key).value, s.originalNumExamples)
         == Gather(Members(s), RangeMeaning(key, NumExamples(s)))
  {
    if key == FullSlice {
      var num := NumExamples(s);
      var pos := RangeMeaning(key, num);
      ProgressionLength(0, num, 1);
      forall k | 0 <= k < num ensures pos[k] == k {
        ProgressionAt(0, num, 1, k);
      }
      assert Gather(Members(s), pos) == Members(s);
    } else if s.listOrSlice.IndexList? {
      ListGetItemMeaning(s, key);
    } else {
      SliceGetItemMeaning(s, key);
    }
  }

  /** The list-subset half of `GetItemMeaning`. */
  lemma ListGetItemMeaning(s: Subset, key: ListOrSlice)
    requires Valid(s) && RequestOk(key, NumExamples(s))
    requires key != FullSlice && s.listOrSlice.IndexList?
    ensures GetItem(s, key).Ok?
    ensures HasMeaning(GetItem(s, key).value, s.originalNumExamples)
    ensures RangeMeaning(GetItem(s, key).value, s.originalNumExamples)
         == Gather(Members(s), RangeMeaning(key, NumExamples(s)))
  {
    if key.SliceOf? {
      var (kStart, kStop, kStep) := SliceToNumericalArgs(key.slice, NumExamples(s));
      assert Min(kStop, |s.listOrSlice.indices|) == kStop;
    }
  }

  /** The members of a slice subset at in-range positions are the affine
      image of those positions. */
  lemma SliceMembersAt(s: Subset, pos: seq<int>)
    requires Valid(s) && s.listOrSlice.SliceOf?
    requires forall k :: 0 <= k < |pos| ==> 0 <= pos[k] < |Members(s)|
    ensures var (start, _, step) := SliceToNumericalArgs(s.listOrSlice.slice, s.originalNumExamples);
      Gather(Members(s), pos) == Affine(start, step, pos)
  {
    var (start, stop, step) := SliceToNumericalArgs(s.listOrSlice.slice, s.originalNumExamples);
    forall k | 0 <= k < |pos| ensures Members(s)[pos[k]] == start + step * pos[k] {
      ProgressionAt(start, stop, step, pos[k]);
    }
  }

  /** The slice-subset half of `GetItemMeaning`. */
  lemma SliceGetItemMeaning(s: Subset, key: ListOrSlice)
    requires Valid(s) && RequestOk(key, NumExamples(s))
    requires key != FullSlice && s.listOrSlice.SliceOf?
    ensures GetItem(s, key).Ok?
    ensures HasMeaning(GetItem(s, key).value, s.originalNumExamples)
    ensures RangeMeaning(GetItem(s, key).value, s.originalNumExamples)
         == Gather(Members(s), RangeMeaning(key, NumExamples(s)))
  {
    var num, n := NumExamples(s), s.originalNumExamples;
    var pos := RangeMeaning(key, num);
    var (start, _, step) := SliceToNumericalArgs(s.listOrSlice.slice, n);
    SliceMembersAt(s, pos);
    if key.SliceOf? {
      var (kStart, kStop, kStep) := SliceToNumericalArgs(key.slice, num);
      var r := GetItem(s, key).value;
      assert r == SliceOf(Slice(Some(start + step * kStart), Some(start + step * kStop), Some(step * kStep)));
      ProgressionAffine(start, step, kStart, kStop, kStep);
    }
  }

  // -----------------------------------------------------------------------
  // subset_of

  /** Cut an explicit slice stop down to `n`. */
  function ClipStop(r: ListOrSlice, n: int): ListOrSlice {
    if r.SliceOf? && r.slice.stop.Some? && r.slice.stop.value > n
    then SliceOf(r.slice.(stop := Some(n)))
    else r
  }

  /** `Subset.subset_of` as written: build a subset over the parent's universe
      from `parent[key]`. */
  function SubsetOfAsWritten(parent: Subset, key: ListOrSlice): (res: Result<Subset, Error>)
    requires Valid(parent)
    ensures GetItem(parent, key).Err? ==> res == Err(GetItem(parent, key).error)
    ensures res.Ok? ==> res.value.originalNumExamples == parent.originalNumExamples
    ensures res.Ok? && Valid(res.value) ==> SubsetOf(parent, key) == res
  {
    var r :- GetItem(parent, key);
    ConstructAsWritten(r, parent.originalNumExamples)
  }

  /** `Subset.subset_of`, with the translated slice's stop cut down to the
      universe before construction (the translation may overshoot it). */
  function SubsetOf(parent: Subset, key: ListOrSlice): (res: Result<Subset, Error>)
    requires Valid(parent)
    ensures res.Ok? ==> Valid(res.value) && res.value.originalNumExamples == parent.originalNumExamples
  {
    var r :- GetItem(parent, key);
    Construct(ClipStop(r, parent.originalNumExamples), parent.originalNumExamples)
  }

  /** Building a subset from a translated list: it succeeds exactly when the
      list is not empty, and holds the list's distinct values. */
  lemma ConstructFromIndices(l: seq<int>, n: nat)
    requires forall k :: 0 <= k < |l| ==> 0 <= l[k] < n
    ensures Construct(IndexList(l), n).Ok? <==> |l| > 0
    ensures Construct(IndexList(l), n).Ok? ==> Members(Construct(IndexList(l), n).value) == SortedUnique(l)
  {
    assert !(exists i | 0 <= i < |l| :: l[i] < 0);
    assert !(exists i | 0 <= i < |l| :: l[i] >= n);
  }

  /** Building a subset from a translated slice whose terms all lie in the
      universe: after clipping, it succeeds exactly when the slice selects
      something, and holds the slice's terms. */
  lemma ConstructFromProgression(a: int, b: int, c: int, n: nat)
    requires a >= 0 && b >= 0 && c > 0
    requires forall k :: 0 <= k < |Progression(a, b, c)| ==> Progression(a, b, c)[k] < n
    ensures var r := ClipStop(SliceOf(Slice(Some(a), Some(b), Some(c))), n);
      && (Construct(r, n).Ok? <==> a < b)
      && (Construct(r, n).Ok? ==> Members(Construct(r, n).value) == Progression(a, b, c))
  {
    ProgressionClip(a, b, c, n);
    var r := ClipStop(SliceOf(Slice(Some(a), Some(b), Some(c))), n);
    assert r == SliceOf(Slice(Some(a), Some(Min(b, n)), Some(c)));
    if a < b {
      assert Progression(a, b, c)[0] == a;
    }
  }

  /** Requests that are malformed, or that select nothing, yield no subset. */
  lemma SubsetOfRejects(parent: Subset, key: ListOrSlice)
    requires Valid(parent)
    requires !RequestOk(key, NumExamples(parent)) || |RangeMeaning(key, NumExamples(parent))| == 0
    ensures SubsetOf(parent, key).Err?
  {
    var num, n := NumExamples(parent), parent.originalNumExamples;
    if !RequestOk(key, num) {
      if SanityCheck(key, num) == None && parent.listOrSlice.SliceOf? {
        var r := GetItem(parent, key).value;
        assert r.slice.step == Some(0) by {
          var (_, _, step) := SliceToNumericalArgs(parent.listOrSlice.slice, n);
          assert step * 0 == 0;
        }
      }
    } else {
      GetItemMeaning(parent, key);
      var r := GetItem(parent, key).value;
      if r.IndexList? {
        ConstructFromIndices(r.indices, n);
      } else {
        assert key != FullSlice;
        var (a, b, c) := SliceToNumericalArgs(r.slice, n);
        assert r.slice == Slice(Some(a), Some(b), Some(c));
        ConstructFromProgression(a, b, c, n);
      }
    }
  }

  /** A derived subset holds exactly the parent's examples at the requested
      positions; it exists precisely when the request is well formed and
      selects at least one example. */
  lemma SubsetOfMeaning(parent: Subset, key: ListOrSlice)
    requires Valid(parent)
    ensures SubsetOf(parent, key).Ok? <==>
      RequestOk(key, NumExamples(parent)) && |RangeMeaning(key, NumExamples(parent))| > 0
    ensures SubsetOf(parent, key).Ok? ==>
      Members(SubsetOf(parent, key).value)
        == SortedUnique(Gather(Members(parent), RangeMeaning(key, NumExamples(parent))))
  {
    var num, n := NumExamples(parent), parent.originalNumExamples;
    if !RequestOk(key, num) || |RangeMeaning(key, num)| == 0 {
      SubsetOfRejects(parent, key);
    } else {
      GetItemMeaning(parent, key);
      var r := GetItem(parent, key).value;
      var g := Gather(Members(parent), RangeMeaning(key, num));
      assert RangeMeaning(r, n) == g;
      if r.IndexList? {
        ConstructFromIndices(r.indices, n);
      } else if key == FullSlice {
        ConstructIdempotent(parent);
        SortedUniqueOfIncreasing(g);
      } else {
        var (a, b, c) := SliceToNumericalArgs(r.slice, n);
        assert r.slice == Slice(Some(a), Some(b), Some(c));
        ConstructFromProgression(a, b, c, n);
        ProgressionIncreasing(a, b, c);
        SortedUniqueOfIncreasing(g);
      }
    }
  }
}
