/** The C# numeric conversions the decoders rely on: 32-bit `int`, and the
    explicit `(int)` conversion of a (nullable) `double`, with `double`
    abstracted as an exact `real`. */
module Numeric {
  import opened Wrappers

  const MinInt32: int := -0x8000_0000
  const MaxInt32: int := 0x7FFF_FFFF

  predicate InInt32Range(n: int) {
    MinInt32 <= n <= MaxInt32
  }

  /** C# `int`. */
  newtype int32 = x: int | InInt32Range(x)

  /** The conversion of a `double` to an integer: the fractional part is
      discarded, rounding toward zero on both sides of 0. */
  function Trunc(x: real): (t: int)
    ensures 0.0 <= x ==> t as real <= x < t as real + 1.0
    ensures x < 0.0 ==> t as real - 1.0 < x <= t as real
  {
    if 0.0 <= x then x.Floor else -((-x).Floor)
  }

  /** Truncation leaves whole numbers unchanged. */
  lemma TruncOfWhole(n: int)
    ensures Trunc(n as real) == n
  {
  }

  /** `(int)v` for `v: double?` read from slot `slot` of a list: a null value
      throws, a value whose truncation leaves the 32-bit range is refused
      (C# leaves that result unspecified), any other value is truncated. */
  function CastToInt32(v: Nullable<real>, slot: int): (r: Result<int32>)
    ensures r.Success? <==> v.NonNull? && InInt32Range(Trunc(v.value))
    ensures r.Success? ==> r.value as int == Trunc(v.value)
    ensures r.Failure? && v.Null? ==> r.error == NullValue(slot)
    ensures r.Failure? && v.NonNull? ==> r.error == CastOverflow(slot)
  {
    match v
    case Null => Failure(NullValue(slot))
    case NonNull(x) =>
      var t := Trunc(x);
      if InInt32Range(t) then Success(t as int32) else Failure(CastOverflow(slot))
  }
}
