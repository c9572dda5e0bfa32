/** `Subset.index_within_subset`, `Subset.safe_unsorted_fancy_index` and
    `iterable_fancy_indexing`: reading a subset's examples from a backend.
    The backend is a sequence of opaque rows; its kind stands for the type
    tests of the source (HDF5 dataset, numpy array, anything else). */
module FancyIndexing {
  import opened Wrappers
  import opened Progressions
  import opened Sorting
  import opened Subsets

  /** What a backend supports for list ("fancy") reads: any list (numpy
      arrays), only sorted lists (HDF5 datasets), or none at all (other
      sequences, read element by element). */
  datatype Backend = InMemoryArray | SortedOnlyStore | GenericSequence

  /** A request within the subset: an integer, a list or a slice. */
  datatype Request = Scalar(index: int) | Ranged(key: ListOrSlice)

  /** The translated request against the whole dataset. */
  datatype Absolute = AbsIndex(index: int) | AbsRange(range: ListOrSlice)

  /** What a read returns: one row for an integer request, rows otherwise. */
  datatype Data<T> = Row(row: T) | Rows(rows: seq<T>)

  /** `indexable[request]` on a backend that accepts any list of indices. */
  function FancyIndex<T>(xs: seq<T>, request: seq<int>): (r: Result<seq<T>, Error>)
    ensures r.Ok? <==> forall k :: 0 <= k < |request| ==> 0 <= request[k] < |xs|
    ensures r.Ok? ==> |r.value| == |request| && forall k :: 0 <= k < |request| ==> r.value[k] == xs[request[k]]
  {
    if forall k :: 0 <= k < |request| ==> 0 <= request[k] < |xs| then Ok(Gather(xs, request))
    else Err(BackendFault)
  }

  /** `indexable[request]` on a backend that refuses lists that are not sorted. */
  function SortedOnlyRead<T>(xs: seq<T>, request: seq<int>): (r: Result<seq<T>, Error>)
    ensures !NonDecreasing(request) ==> r == Err(UnsortedIndexing)
    ensures r.Ok? <==> NonDecreasing(request) && forall k :: 0 <= k < |request| ==> 0 <= request[k] < |xs|
    ensures r.Ok? ==> r == FancyIndex(xs, request)
  {
    if NonDecreasing(request) then FancyIndex(xs, request) else Err(UnsortedIndexing)
  }

  /** `iterable_fancy_indexing`: `[iterable[r] for r in request]`, one element
      at a time; it agrees with a native fancy read. */
  function IterableFancyIndexing<T>(xs: seq<T>, request: seq<int>): (r: Result<seq<T>, Error>)
    ensures r == FancyIndex(xs, request)
  {
    if request == [] then Ok([])
    else if !(0 <= request[0] < |xs|) then Err(BackendFault)
    else
      var rest := IterableFancyIndexing(xs, request[1..]);
      assert forall k :: 1 <= k < |request| ==> request[k] == request[1..][k - 1];
      if rest.Err? then Err(rest.error)
      else
        var rows := [xs[request[0]]] + rest.value;
        assert forall k :: 1 <= k < |request| ==> rows[k] == rest.value[k - 1];
        assert forall k :: 0 <= k < |request| ==> 0 <= request[k] < |xs|;
        assert rows == Gather(xs, request);
        Ok(rows)
  }

  /** `safe_unsorted_fancy_index`: read a list of indices from a backend that
      only accepts sorted lists, by reading in sorted order and scattering the
      rows back to the requested order. The result is what a native fancy
      read in request order returns, and the backend is only ever given a
      sorted list. A request of at most one index is read directly. */
  method SafeUnsortedFancyIndex<T(0)>(backend: seq<T>, request: seq<int>) returns (res: Result<seq<T>, Error>)
    ensures res == FancyIndex(backend, request)
  {
    if |request| > 1 {
      var order := ArgSort(request);
      var sortedRequest := Gather(request, order);
      ArgSortSorts(request);
      var fetched := SortedOnlyRead(backend, sortedRequest);
      if fetched.Err? {
        assert !NonDecreasing(sortedRequest) || FancyIndex(backend, sortedRequest).Err?;
        var k :| 0 <= k < |sortedRequest| && !(0 <= sortedRequest[k] < |backend|);
        assert !(0 <= request[order[k]] < |backend|);
        res := Err(BackendFault);
        return;
      }
      var rows := fetched.value;
      var data := new T[|request|];
      var k := 0;
      while k < |request|
        invariant 0 <= k <= |request|
        invariant forall j :: 0 <= j < k ==> data[order[j]] == backend[request[order[j]]]
      {
        data[order[k]] := rows[k];
        k := k + 1;
      }
      forall p | 0 <= p < |request|
        ensures 0 <= request[p] < |backend| && data[p] == backend[request[p]]
      {
        assert p in order;
        var j :| 0 <= j < |order| && order[j] == p;
        assert sortedRequest[j] == request[p];
      }
      assert data[..] == Gather(backend, request);
      res := Ok(data[..]);
    } else {
      res := SortedOnlyRead(backend, request);
    }
  }

  /** The translation half of `index_within_subset`: an integer request is
      made a one-element list and its single result unwrapped. */
  function Resolve(s: Subset, request: Request): (r: Result<Absolute, Error>)
    requires Valid(s)
    ensures request.Scalar? ==> (r.Ok? <==> 0 <= request.index < NumExamples(s))
    ensures request.Scalar? && r.Ok? ==> r.value == AbsIndex(Members(s)[request.index])
    ensures request.Ranged? && r.Ok? ==> r.value.AbsRange?
    ensures r.Ok? && r.value.AbsRange? && r.value.range.SliceOf? ==> NonNegativeArgs(r.value.range.slice)
  {
    match request
    case Scalar(i) =>
      var key := IndexList([i]);
      if 0 <= i < NumExamples(s) then
        assert !(exists j | 0 <= j < 1 :: [i][j] < 0);
        assert !(exists j | 0 <= j < 1 :: [i][j] >= NumExamples(s));
        GetItemMeaning(s, key);
        Ok(AbsIndex(GetItem(s, key).value.indices[0]))
      else
        assert [i][0] < 0 || [i][0] >= NumExamples(s);
        Err(GetItem(s, key).error)
    case Ranged(key) =>
      var abs :- GetItem(s, key);
      Ok(AbsRange(abs))
  }

  /** `indexable[request]` on a backend that accepts any request: an integer
      and a slice are read directly, a list by a fancy read. */
  function Read<T>(backend: seq<T>, abs: Absolute): (r: Result<Data<T>, Error>)
    requires abs.AbsRange? && abs.range.SliceOf? ==> NonNegativeArgs(abs.range.slice)
    ensures abs.AbsIndex? ==> (r.Ok? <==> 0 <= abs.index < |backend|)
    ensures abs.AbsIndex? && r.Ok? ==> r.value == Row(backend[abs.index])
    ensures abs.AbsRange? && abs.range.IndexList? ==>
      r == (if FancyIndex(backend, abs.range.indices).Ok? then Ok(Rows(FancyIndex(backend, abs.range.indices).value))
            else Err(BackendFault))
    ensures abs.AbsRange? && abs.range.SliceOf? ==> (r.Err? <==> abs.range.slice.step == Some(0))
    ensures abs.AbsRange? && r.Ok? ==> r.value.Rows?
  {
    match abs
    case AbsIndex(i) =>
      if 0 <= i < |backend| then Ok(Row(backend[i])) else Err(BackendFault)
    case AbsRange(IndexList(l)) =>
      var rows :- FancyIndex(backend, l);
      Ok(Rows(rows))
    case AbsRange(SliceOf(sl)) =>
      var rows :- PySlice(backend, sl);
      Ok(Rows(rows))
  }

  /** A sorted-only backend read without the workaround refuses an unsorted list. */
  predicate RefusesUnsorted(kind: Backend, safeHdf5Indexing: bool, abs: Absolute) {
    && kind == SortedOnlyStore && !safeHdf5Indexing
    && abs.AbsRange? && abs.range.IndexList? && !NonDecreasing(abs.range.indices)
  }

  /** `index_within_subset`: translate the request, then read it from the
      backend as its kind allows. Whatever the kind, the result is that of an
      unrestricted read of the translated request, except that a sorted-only
      backend read without the workaround refuses an unsorted list. */
  method IndexWithinSubset<T(0)>(s: Subset, backend: seq<T>, kind: Backend, request: Request, safeHdf5Indexing: bool)
    returns (res: Result<Data<T>, Error>)
    requires Valid(s)
    ensures Resolve(s, request).Err? ==> res == Err(Resolve(s, request).error)
    ensures Resolve(s, request).Ok? && !RefusesUnsorted(kind, safeHdf5Indexing, Resolve(s, request).value) ==>
      res == Read(backend, Resolve(s, request).value)
    ensures Resolve(s, request).Ok? && RefusesUnsorted(kind, safeHdf5Indexing, Resolve(s, request).value) ==>
      res == Err(UnsortedIndexing)
  {
    var resolved := Resolve(s, request);
    if resolved.Err? {
      res := Err(resolved.error);
      return;
    }
    var abs := resolved.value;
    if abs.AbsIndex? || abs.range.SliceOf? {
      res := Read(backend, abs);
    } else {
      var l := abs.range.indices;
      var rows: Result<seq<T>, Error>;
      if kind == SortedOnlyStore && safeHdf5Indexing {
        rows := SafeUnsortedFancyIndex(backend, l);
      } else if kind == SortedOnlyStore {
        rows := SortedOnlyRead(backend, l);
      } else if kind == InMemoryArray {
        rows := FancyIndex(backend, l);
      } else {
        rows := IterableFancyIndexing(backend, l);
      }
      res := if rows.Ok? then Ok(Rows(rows.value)) else Err(rows.error);
    }
  }

  // -----------------------------------------------------------------------
  // Round trip

  /** A request within the subset that the checks accept. */
  predicate RelativeRequestOk(s: Subset, request: Request)
    requires Valid(s)
  {
    match request
    case Scalar(i) => 0 <= i < NumExamples(s)
    case Ranged(key) => RequestOk(key, NumExamples(s))
  }

  /** Reading a translated request from the dataset the subset belongs to
      gives the subset's examples at the requested positions, in request
      order; a request the checks reject reads nothing. */
  lemma ReadWithinSubset<T>(s: Subset, backend: seq<T>, request: Request)
    requires Valid(s) && |backend| == s.originalNumExamples
    ensures !RelativeRequestOk(s, request) ==>
      Resolve(s, request).Err? || Read(backend, Resolve(s, request).value).Err?
    ensures RelativeRequestOk(s, request) && request.Scalar? ==>
      Resolve(s, request).Ok? && Read(backend, Resolve(s, request).value) == Ok(Row(backend[Members(s)[request.index]]))
    ensures RelativeRequestOk(s, request) && request.Ranged? ==>
      Resolve(s, request).Ok? &&
      Read(backend, Resolve(s, request).value)
        == Ok(Rows(Gather(backend, Gather(Members(s), RangeMeaning(request.key, NumExamples(s))))))
  {
    var num, n := NumExamples(s), s.originalNumExamples;
    match request
    case Scalar(i) =>
      if 0 <= i < num {
        var key := IndexList([i]);
        assert !(exists j | 0 <= j < 1 :: [i][j] < 0);
        assert !(exists j | 0 <= j < 1 :: [i][j] >= num);
        GetItemMeaning(s, key);
      }
    case Ranged(key) =>
      if RequestOk(key, num) {
        GetItemMeaning(s, key);
        var abs := GetItem(s, key).value;
        var g := Gather(Members(s), RangeMeaning(key, num));
        assert forall k :: 0 <= k < |g| ==> 0 <= g[k] < n;
        if abs.SliceOf? {
          var (a, b, c) := SliceToNumericalArgs(abs.slice, n);
          ProgressionClip(a, b, c, n);
        }
      } else if SanityCheck(key, num) == None && s.listOrSlice.SliceOf? {
        var abs := GetItem(s, key).value;
        assert abs.slice.step == Some(0) by {
          var (_, _, step) := SliceToNumericalArgs(s.listOrSlice.slice, n);
          assert step * 0 == 0;
        }
      }
  }
}
