/**
 * What running a parser yields. A Go parser returns (value, error) and
 * leaves its effect in the scanner it was handed; here a parser is a
 * function of the scanner's state, and its reply carries the state it
 * leaves behind, on failure as much as on success.
 */
module Replies {
  import opened Errors

  datatype Reply<+S, +A> = Success(value: A, state: S) | Failure(error: Error, state: S)

  /** The reply of a parser that returns a Go function's (value, error) pair as it is, in state s. */
  function FromFallible<S, B>(r: Fallible<B>, s: S): (reply: Reply<S, B>)
    ensures reply.state == s
    ensures reply.Success? <==> r.1.None?
    ensures reply.Success? ==> reply.value == r.0
    ensures reply.Failure? ==> r.1 == Some(reply.error)
  {
    if r.1.Some? then Failure(r.1.value, s) else Success(r.0, s)
  }
}
