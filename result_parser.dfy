/** A parser of Results unwrapped into a parser of values (result/parser.go). */
module ResultParser {
  import opened Errors
  import opened Replies
  import opened AvramScanner
  import opened AvramParser
  import opened ResultValue
  import AvramLift
  import ResultLift

  /**
   * Unwrap(p): p's Result unwrapped; an error inside the Result fails the
   * parser, at the state p left, just as a failure of p itself does.
   */
  function Unwrap<A>(p: Parser<Result<A>>): (q: Parser<A>)
    ensures forall s: Scan :: q(s).state == p(s).state
    ensures forall s: Scan :: q(s).Success? <==> p(s).Success? && p(s).value.err.None?
    ensures forall s: Scan :: q(s).Success? ==> q(s).value == p(s).value.value
    ensures forall s: Scan :: p(s).Failure? ==> q(s).error == p(s).error
    ensures forall s: Scan :: p(s).Success? && p(s).value.err.Some? ==> q(s).error == p(s).value.err.value
  {
    (s: Scan) =>
      match p(s)
      case Failure(err, s1) => Failure(err, s1)
      case Success(res, s1) => FromFallible(ResultValue.Unwrap(res), s1)
  }

  /**
   * Unwrapping the lifted result of a fallible function is lifting the
   * function over the parser directly: the two ways the calculator
   * grammar can turn a digit string into a number agree.
   */
  lemma UnwrapLiftIsLift<A(!new), B>(f: A -> Fallible<B>, p: Parser<A>, s: Scan)
    ensures Unwrap(AvramLift.Lift(AvramLift.Error(ResultLift.Lift(f)), p))(s) == AvramLift.Lift(f, p)(s)
  {
  }
}
