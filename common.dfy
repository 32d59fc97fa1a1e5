/** Small shared vocabulary: optional values, results, and folds over sequences
    that the Python and JavaScript sources write as `sum(...)`, `len([...])`
    and list comprehensions. */
module Common {

  datatype Option<+T> = None | Some(value: T) {
    function GetOr(default: T): T {
      match this
      case Some(v) => v
      case None => default
    }
  }

  datatype Result<+T, +E> = Ok(value: T) | Err(error: E)

  /** Sum of a sequence of reals, left to right. */
  function SumReal(xs: seq<real>): real
  {
    if xs == [] then 0.0 else SumReal(xs[..|xs| - 1]) + xs[|xs| - 1]
  }

  /** Sum of a sequence of integers, left to right. */
  function SumInt(xs: seq<int>): int
  {
    if xs == [] then 0 else SumInt(xs[..|xs| - 1]) + xs[|xs| - 1]
  }

  lemma {:induction false} SumRealAppend(xs: seq<real>, x: real)
    ensures SumReal(xs + [x]) == SumReal(xs) + x
  {
    assert (xs + [x])[..|xs + [x]| - 1] == xs;
  }

  /** The running sum of a prefix grows by the next element. */
  lemma SumRealPrefix(xs: seq<real>, i: nat)
    requires i < |xs|
    ensures SumReal(xs[..i + 1]) == SumReal(xs[..i]) + xs[i]
  {
    assert xs[..i + 1][..i] == xs[..i];
  }

  lemma {:induction false} SumIntAppend(xs: seq<int>, x: int)
    ensures SumInt(xs + [x]) == SumInt(xs) + x
  {
    assert (xs + [x])[..|xs + [x]| - 1] == xs;
  }

  /** Every element at most `hi` bounds the sum by `|xs| * hi`. */
  lemma {:induction false} SumRealBounded(xs: seq<real>, lo: real, hi: real)
    requires forall i | 0 <= i < |xs| :: lo <= xs[i] <= hi
    ensures |xs| as real * lo <= SumReal(xs) <= |xs| as real * hi
  {
    if xs != [] {
      SumRealBounded(xs[..|xs| - 1], lo, hi);
    }
  }

  /** The non-negative integers of a sequence have a non-negative sum. */
  lemma {:induction false} SumIntNonNegative(xs: seq<int>)
    requires forall i | 0 <= i < |xs| :: xs[i] >= 0
    ensures SumInt(xs) >= 0
  {
    if xs != [] {
      SumIntNonNegative(xs[..|xs| - 1]);
    }
  }

  /** Division by a positive count keeps a non-negative total within per-element bounds. */
  lemma DivBounds(a: real, n: real, hi: real)
    requires n > 0.0 && 0.0 <= a <= n * hi
    ensures 0.0 <= a / n <= hi
  {
  }

  /** The non-negative reals of a sequence have a non-negative sum. */
  lemma {:induction false} SumRealNonNegative(xs: seq<real>)
    requires forall i | 0 <= i < |xs| :: xs[i] >= 0.0
    ensures SumReal(xs) >= 0.0
  {
    if xs != [] {
      SumRealNonNegative(xs[..|xs| - 1]);
    }
  }

  lemma DivAtMost(a: real, n: real, hi: real)
    requires n > 0.0 && a <= n * hi
    ensures a / n <= hi
  {
  }

  lemma DivBelow(a: real, n: real, hi: real)
    requires n > 0.0 && a < n * hi
    ensures a / n < hi
  {
  }

  lemma DivAtLeast(a: real, n: real, lo: real)
    requires n > 0.0 && n * lo <= a
    ensures lo <= a / n
  {
  }

  /** A non-empty mean lies within any bounds of its elements. */
  lemma MeanWithin(xs: seq<real>, lo: real, hi: real)
    requires xs != []
    requires forall i | 0 <= i < |xs| :: lo <= xs[i] <= hi
    ensures lo <= SumReal(xs) / |xs| as real <= hi
  {
    SumRealBounded(xs, lo, hi);
    DivAtLeast(SumReal(xs), |xs| as real, lo);
    DivAtMost(SumReal(xs), |xs| as real, hi);
  }

  /** The positions of the elements of `xs` that satisfy `p`: what
      `len([x for x in xs if p(x)])` counts. */
  function Positions<T>(xs: seq<T>, p: T -> bool): set<nat>
  {
    set i: nat | i < |xs| && p(xs[i])
  }

  /** One more element adds one position iff it satisfies `p`. */
  lemma PositionsSnoc<T>(xs: seq<T>, x: T, p: T -> bool)
    ensures |Positions(xs + [x], p)| == |Positions(xs, p)| + (if p(x) then 1 else 0)
  {
    var a, b := Positions(xs, p), Positions(xs + [x], p);
    assert b == a + (if p(x) then {|xs|} else {});
    assert |xs| !in a;
  }

  function Min(a: real, b: real): real { if a <= b then a else b }
  function Max(a: real, b: real): real { if a >= b then a else b }
}
