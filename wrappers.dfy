/** Failure-compatible results and Python's sequence indexing, shared by the solver's modules. */
module Wrappers {

  /** The exceptions the modelled code can raise. */
  datatype PyError =
    | ValueError   // a k-nearest-neighbour row that does not unpack into exactly two matches
    | IndexError   // a subscript outside the indexed sequence
    | CvError      // an error raised inside an OpenCV call

  datatype Option<+T> = None | Some(value: T)

  /** The value of a Python expression, or the exception it raised. */
  datatype Result<+T> = Success(value: T) | Failure(error: PyError) {
    predicate IsFailure() { Failure? }

    function PropagateFailure<U>(): Result<U>
      requires Failure?
    {
      Failure(error)
    }

    function Extract(): T
      requires Success?
    {
      value
    }
  }

  /** The outcome of a Python statement sequence that returns nothing. */
  datatype Outcome = Pass | Fail(error: PyError)

  /** Python's `xs[i]` on a sequence of length `n`: negative subscripts count from
      the end, anything outside `-n .. n-1` raises IndexError (None here). */
  function PyIndex(i: int, n: nat): (r: Option<nat>)
    ensures r.Some? <==> -(n as int) <= i < n
    ensures r.Some? ==> r.value < n && (if i < 0 then r.value == i + n else r.value == i)
  {
    if 0 <= i < n then Some(i)
    else if -(n as int) <= i < 0 then Some(i + n)
    else None
  }
}
