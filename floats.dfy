/** Double-precision values as numpy stores them in the analysis buffers.
    NaN marks an empty slot; every ordered comparison or equality involving
    NaN is false, and arithmetic on NaN yields NaN. Infinities are not
    represented: the one place the analysis can produce one (a zero time gap
    between two breath crossings) is handled where it occurs. */
module Floats {
  import Utils

  datatype Float = NaN | Num(r: real)

  datatype Option<T> = None | Some(value: T)

  /** The outcome of an operation that may raise an exception in the source. */
  datatype Outcome = Pass | Fail(error: string)

  datatype Result<T> = Ok(value: T) | Err(error: string)

  predicate Lt(a: Float, b: Float) { a.Num? && b.Num? && a.r < b.r }

  predicate Le(a: Float, b: Float) { a.Num? && b.Num? && a.r <= b.r }

  predicate Gt(a: Float, b: Float) { Lt(b, a) }

  predicate Ge(a: Float, b: Float) { Le(b, a) }

  /** `a == b`: false as soon as one side is NaN (so NaN != NaN). */
  predicate Eq(a: Float, b: Float) { a.Num? && b.Num? && a.r == b.r }

  function Sub(a: Float, b: Float): Float
  {
    if a.Num? && b.Num? then Num(a.r - b.r) else NaN
  }

  function Scale(c: real, a: Float): Float
  {
    if a.Num? then Num(c * a.r) else NaN
  }

  function Abs(a: Float): Float
  {
    if a.Num? then Num(if a.r < 0.0 then -a.r else a.r) else NaN
  }

  function SignOf(x: real): int
  {
    if x > 0.0 then 1 else if x < 0.0 then -1 else 0
  }

  /** `np.sign`: -1, 0 or 1, and NaN for NaN. */
  function Sign(a: Float): Float
  {
    if a.Num? then Num(SignOf(a.r) as real) else NaN
  }

  /** `np.amin` of two values: NaN as soon as one of them is NaN. */
  function Min2(a: Float, b: Float): Float
  {
    if a.Num? && b.Num? then Num(Utils.Min(a.r, b.r)) else NaN
  }

  /** `np.sqrt` applied to a float64, for a square root given as a parameter. */
  function SqrtF(sqrt: real -> real, a: Float): Float
  {
    if a.Num? then Num(sqrt(a.r)) else NaN
  }

  predicate AllNaN(s: seq<Float>)
  {
    forall i :: 0 <= i < |s| ==> s[i].NaN?
  }

  predicate AllNum(s: seq<Float>)
  {
    forall i :: 0 <= i < |s| ==> s[i].Num?
  }

  /** `np.full(n, x)`. */
  function Repeat<T>(x: T, n: nat): (s: seq<T>)
    ensures |s| == n && forall i :: 0 <= i < n ==> s[i] == x
  {
    seq(n, _ => x)
  }

  function Reals(s: seq<Float>): (xs: seq<real>)
    requires AllNum(s)
    ensures |xs| == |s| && forall i :: 0 <= i < |s| ==> s[i] == Num(xs[i])
  {
    seq(|s|, i requires 0 <= i < |s| => s[i].r)
  }
}
