/** Arithmetic progressions `start, start + step, ... < stop`, the meaning of a
    Python slice with non-negative bounds, and gathers `[xs[i] for i in positions]`. */
module Progressions {

  /** The terms `start + k * step` that lie below `stop`, in increasing order. */
  function Progression(start: int, stop: int, step: int): (r: seq<int>)
    requires step > 0
    ensures forall k :: 0 <= k < |r| ==> start <= r[k] < stop
    decreases stop - start
  {
    if start >= stop then [] else [start] + Progression(start + step, stop, step)
  }

  /** `[xs[i] for i in positions]`. */
  function Gather<X>(xs: seq<X>, positions: seq<int>): (r: seq<X>)
    requires forall k :: 0 <= k < |positions| ==> 0 <= positions[k] < |xs|
    ensures |r| == |positions|
    ensures forall k :: 0 <= k < |positions| ==> r[k] == xs[positions[k]]
  {
    seq(|positions|, k requires 0 <= k < |positions| => xs[positions[k]])
  }

  /** `list(range(n))`. */
  function Iota(n: nat): (r: seq<int>)
    ensures |r| == n
    ensures forall k :: 0 <= k < n ==> r[k] == k
  {
    seq(n, k => k)
  }

  /** `[offset + scale * x for x in xs]`. */
  function Affine(offset: int, scale: int, xs: seq<int>): (r: seq<int>)
    ensures |r| == |xs|
    ensures forall k :: 0 <= k < |xs| ==> r[k] == offset + scale * xs[k]
  {
    seq(|xs|, k requires 0 <= k < |xs| => offset + scale * xs[k])
  }

  function Min(a: int, b: int): int { if a <= b then a else b }
  function Max(a: int, b: int): int { if a >= b then a else b }

  predicate StrictlyIncreasing(s: seq<int>) {
    forall i, j :: 0 <= i < j < |s| ==> s[i] < s[j]
  }

  predicate NonDecreasing(s: seq<int>) {
    forall i, j :: 0 <= i < j < |s| ==> s[i] <= s[j]
  }

  // ---------------------------------------------------------------------
  // Euclidean division facts (Dafny's `/` with a positive divisor is
  // Python's floor division `//`).

  /** Python's `a // b` for any non-zero `b`: the quotient rounded towards
      minus infinity. */
  function FloorDiv(a: int, b: int): (q: int)
    requires b != 0
    ensures b > 0 ==> q * b <= a < q * b + b
    ensures b < 0 ==> q * b >= a > q * b + b
  {
    if b > 0 then a / b else (-a) / (-b)
  }

  lemma MulGrows(a: int, d: int)
    requires d > 0
    ensures a >= 1 ==> a * d >= d
    ensures a <= -1 ==> a * d <= -d
  {
    if a >= 1 {
      assert a * d == (a - 1) * d + d;
    } else if a <= -1 {
      assert a * d == (a + 1) * d - d;
    }
  }

  lemma DivUnique(x: int, d: int, q: int, r: int)
    requires d > 0 && 0 <= r < d && x == q * d + r
    ensures x / d == q
  {
    var q0, r0 := x / d, x % d;
    assert x == q0 * d + r0;
    assert (q - q0) * d == r0 - r;
    MulGrows(q - q0, d);
  }

  lemma DivShift(x: int, d: int)
    requires d > 0
    ensures (x + d) / d == x / d + 1
  {
    DivUnique(x + d, d, x / d + 1, x % d);
  }

  // ---------------------------------------------------------------------
  // Progressions

  /** The number of terms: Python's `((stop - start) - 1) // step + 1` when
      `start < stop`, and none otherwise. */
  lemma {:induction false} ProgressionLength(start: int, stop: int, step: int)
    requires step > 0
    ensures |Progression(start, stop, step)| == if start >= stop then 0 else (stop - start - 1) / step + 1
    decreases stop - start
  {
    if start < stop {
      ProgressionLength(start + step, stop, step);
      if start + step >= stop {
        DivUnique(stop - start - 1, step, 0, stop - start - 1);
      } else {
        DivShift(stop - start - step - 1, step);
      }
    }
  }

  /** The k-th term is `start + k * step`. */
  lemma {:induction false} ProgressionAt(start: int, stop: int, step: int, k: int)
    requires step > 0
    requires 0 <= k < |Progression(start, stop, step)|
    ensures Progression(start, stop, step)[k] == start + k * step
    decreases stop - start
  {
    if k > 0 {
      ProgressionAt(start + step, stop, step, k - 1);
    }
  }

  /** Every term below `stop` is present: the progression ends because the next
      term would reach `stop`. */
  lemma {:induction false} ProgressionEnd(start: int, stop: int, step: int)
    requires step > 0
    ensures start + |Progression(start, stop, step)| * step >= stop
    decreases stop - start
  {
    if start < stop {
      ProgressionEnd(start + step, stop, step);
    }
  }

  lemma {:induction false} ProgressionIncreasing(start: int, stop: int, step: int)
    requires step > 0
    ensures StrictlyIncreasing(Progression(start, stop, step))
    decreases stop - start
  {
    if start < stop {
      ProgressionIncreasing(start + step, stop, step);
    }
  }

  /** A step-1 progression holds exactly the integers of `[start, stop)`. */
  lemma {:induction false} UnitProgressionElems(start: int, stop: int, x: int)
    ensures x in Progression(start, stop, 1) <==> start <= x < stop
    decreases stop - start
  {
    if start < stop {
      UnitProgressionElems(start + 1, stop, x);
    }
  }

  /** Cutting `stop` down to a bound that all terms already respect changes nothing. */
  lemma {:induction false} ProgressionClip(start: int, stop: int, step: int, bound: int)
    requires step > 0
    requires forall k :: 0 <= k < |Progression(start, stop, step)| ==> Progression(start, stop, step)[k] < bound
    ensures Progression(start, Min(stop, bound), step) == Progression(start, stop, step)
    decreases stop - start
  {
    if start < stop {
      assert Progression(start, stop, step)[0] == start;
      var tail := Progression(start + step, stop, step);
      assert forall k :: 0 <= k < |tail| ==> tail[k] == Progression(start, stop, step)[k + 1];
      ProgressionClip(start + step, stop, step, bound);
    }
  }

  /** Scaling by a positive factor keeps order and distributes over addition. */
  lemma ScaleFacts(offset: int, scale: int, a: int, b: int, c: int)
    requires scale > 0 && c > 0
    ensures scale * c > 0
    ensures a >= b <==> offset + scale * a >= offset + scale * b
    ensures offset + scale * a + scale * c == offset + scale * (a + c)
  {
    MulGrows(c, scale);
    MulGrows(a - b, scale);
    MulGrows(b - a, scale);
    assert scale * a - scale * b == (a - b) * scale;
  }

  /** Composing two progressions: the terms `offset + scale * x` for the x of
      `Progression(a, b, c)` form one progression with step `scale * c`. */
  lemma {:induction false} ProgressionAffine(offset: int, scale: int, a: int, b: int, c: int)
    requires scale > 0 && c > 0
    ensures scale * c > 0
    ensures Progression(offset + scale * a, offset + scale * b, scale * c) == Affine(offset, scale, Progression(a, b, c))
    decreases b - a
  {
    ScaleFacts(offset, scale, a, b, c);
    if a < b {
      ProgressionAffine(offset, scale, a + c, b, c);
      var tail := Progression(a + c, b, c);
      assert Progression(a, b, c) == [a] + tail;
      assert Affine(offset, scale, [a] + tail) == [offset + scale * a] + Affine(offset, scale, tail);
    }
  }
}
