/** Failure-compatible wrappers shared by every decoder of the feed.

- Nullable<T> stands for a C# reference or `Nullable<T>` value that may be `null`.
- Result<T> stands for "returns a T or throws"; the thrown exception is an Error.
 */
module Wrappers {

  /** A value that may be absent, as C# `null` is. */
  datatype Nullable<+T> = Null | NonNull(value: T) {

    /** The value, or `default` when absent (C# `x ?? default`). */
    function OrElse(default: T): T {
      match this
      case NonNull(v) => v
      case Null => default
    }
  }

  /** The exceptions the decoding layer can raise, one constructor per cause. */
  datatype Error =
    | IndexOutOfRange(index: int)   // a list was indexed past its end
    | NullValue(index: int)         // `(int)` of a null `double?`
    | CastOverflow(index: int)      // `(int)` of a value outside the 32-bit range
    | NullReference                 // a member of a null object was used
    | SchemaMismatch(key: string)   // a JSON value of the wrong kind for its field
    | NotAnObject                   // a JSON document that is not an object
    | TimeOutOfRange                // a Unix time outside the years 1 to 9999
    | FormatError                   // text that is not a decimal integer

  /** A computation that either yields a value or throws an Error. */
  datatype Result<+T> = Success(value: T) | Failure(error: Error) {

    predicate IsFailure() {
      Failure?
    }

    function PropagateFailure<U>(): Result<U>
      requires Failure?
    {
      Failure(error)
    }

    function Extract(): T
      requires Success?
    {
      value
    }
  }

  /** `list[i]` on a list that may be null. */
  function ItemAt<T>(xs: Nullable<seq<T>>, i: nat): (r: Result<T>)
    ensures r.Success? <==> xs.NonNull? && i < |xs.value|
    ensures r.Success? ==> r.value == xs.value[i]
    ensures xs.Null? ==> r == Failure(NullReference)
    ensures xs.NonNull? && i >= |xs.value| ==> r == Failure(IndexOutOfRange(i))
  {
    match xs
    case Null => Failure(NullReference)
    case NonNull(s) => if i < |s| then Success(s[i]) else Failure(IndexOutOfRange(i))
  }

  /** Applies f to every element in order, stopping at the first failure
      and reporting that failure. */
  function MapAll<A, B>(xs: seq<A>, f: A -> Result<B>): (r: Result<seq<B>>)
    ensures r.Success? <==> forall i :: 0 <= i < |xs| ==> f(xs[i]).Success?
    ensures r.Success? ==>
              && |r.value| == |xs|
              && forall i :: 0 <= i < |xs| ==> r.value[i] == f(xs[i]).value
    ensures r.Failure? ==>
              exists i :: && 0 <= i < |xs|
                          && f(xs[i]) == Failure(r.error)
                          && forall j :: 0 <= j < i ==> f(xs[j]).Success?
  {
    if |xs| == 0 then Success([])
    else
      match f(xs[0])
      case Failure(e) => Failure(e)
      case Success(y) =>
        var rest := MapAll(xs[1..], f);
        if rest.Failure? then
          var i :| && 0 <= i < |xs| - 1
                   && f(xs[1..][i]) == Failure(rest.error)
                   && forall j :: 0 <= j < i ==> f(xs[1..][j]).Success?;
          assert f(xs[i + 1]) == Failure(rest.error);
          Failure(rest.error)
        else
          Success([y] + rest.value)
  }
}
