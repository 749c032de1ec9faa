/**
 * The parser type of the root avram engine and its basic combinators
 * (parser.go), with the two meta-parsers of scanner.go, Finish and
 * Location. A Go Parser[A] is a function of a *Scanner; here it is a
 * function of the scanner's state that replies with its result and the
 * state it leaves behind.
 */
module AvramParser {
  import opened Errors
  import opened Replies
  import opened AvramScanner

  /** Running a parser never changes the input it reads. */
  ghost predicate Sound<A>(p: Scan -> Reply<Scan, A>)
  {
    forall s: Scan :: p(s).state.input == s.input
  }

  type Parser<A> = p: Scan -> Reply<Scan, A> | Sound(p)
    witness (s: Scan) => Failure(EOF, s)

  /** p never moves the position backwards. */
  ghost predicate Forward<A>(p: Parser<A>)
  {
    forall s: Scan :: p(s).state.pos >= s.pos
  }

  /** Whenever p succeeds it has consumed at least one byte: what repetition needs to end. */
  ghost predicate Progress<A>(p: Parser<A>)
  {
    forall s: Scan :: p(s).Success? ==> p(s).state.pos > s.pos
  }

  /** Name(name, p): p, with its failures reported as "<name> failed: <error>". */
  function Name<A>(name: string, p: Parser<A>): (q: Parser<A>)
    ensures forall s: Scan :: q(s).state == p(s).state
    ensures forall s: Scan :: q(s).Success? <==> p(s).Success?
    ensures forall s: Scan :: p(s).Success? ==> q(s).value == p(s).value
    ensures forall s: Scan :: p(s).Failure? ==> q(s).error == Named(name, p(s).error)
  {
    (s: Scan) =>
      match p(s)
      case Failure(err, s1) => Failure(Named(name, err), s1)
      case Success(val, s1) => Success(val, s1)
  }

  /**
   * Try(p): p's outcome, except that a failure puts the position back
   * where p started. Only the position is restored: the width history
   * and the line count stay as p left them.
   */
  function Try<A>(p: Parser<A>): (q: Parser<A>)
    ensures forall s: Scan :: p(s).Success? ==> q(s) == p(s)
    ensures forall s: Scan :: p(s).Failure? ==> q(s) == Failure(p(s).error, Restore(p(s).state, s.pos))
  {
    (s: Scan) =>
      var checkpoint := s.pos;
      match p(s)
      case Failure(err, s1) => Failure(err, Restore(s1, checkpoint))
      case Success(out, s1) => Success(out, s1)
  }

  /** A failure of Try(p) consumes nothing, whatever p consumed. */
  lemma TryFailsInPlace<A>(p: Parser<A>, s: Scan)
    ensures Try(p)(s).Failure? ==> Try(p)(s).state.pos == s.pos
    ensures Try(p)(s).Success? <==> p(s).Success?
  {
  }

  /** Trying twice is trying once. */
  lemma TryIdempotent<A>(p: Parser<A>, s: Scan)
    ensures Try(Try(p))(s) == Try(p)(s)
  {
  }

  /** Maybe(p): Some of p's value if it succeeds; otherwise None, with the position back where it was. Never fails. */
  function Maybe<A>(p: Parser<A>): (q: Parser<Option<A>>)
    ensures forall s: Scan :: q(s).Success?
    ensures forall s: Scan :: p(s).Success? ==> q(s) == Success(Some(p(s).value), p(s).state)
    ensures forall s: Scan :: p(s).Failure? ==> q(s) == Success(None, Restore(p(s).state, s.pos))
  {
    var tp := Try(p);
    (s: Scan) =>
      match tp(s)
      case Failure(_, _) => Success(None, tp(s).state)
      case Success(out, s1) => Success(Some(out), s1)
  }

  /** LookAhead(p): p's outcome, with the position put back whether p succeeded or not. */
  function LookAhead<A>(p: Parser<A>): (q: Parser<A>)
    ensures forall s: Scan :: q(s).state == Restore(p(s).state, s.pos)
    ensures forall s: Scan :: q(s).Success? <==> p(s).Success?
    ensures forall s: Scan :: p(s).Success? ==> q(s).value == p(s).value
    ensures forall s: Scan :: p(s).Failure? ==> q(s).error == p(s).error
  {
    (s: Scan) =>
      var checkpoint := s.pos;
      match p(s)
      case Failure(err, s1) => Failure(err, Restore(s1, checkpoint))
      case Success(val, s1) => Success(val, Restore(s1, checkpoint))
  }

  /** Return(v): succeed with v and consume nothing. */
  function Return<A>(v: A): (p: Parser<A>)
    ensures forall s: Scan :: p(s) == Success(v, s)
  {
    (s: Scan) => Success(v, s)
  }

  /** Fail(err): fail with err and consume nothing. */
  function Fail<A>(err: Error): (p: Parser<A>)
    ensures forall s: Scan :: p(s) == Failure(err, s)
  {
    (s: Scan) => Failure(err, s)
  }

  /** Bind(p, f): run p, then the parser f makes of its value, from where p stopped. */
  function Bind<A, B>(p: Parser<A>, f: A -> Parser<B>): (q: Parser<B>)
    ensures forall s: Scan :: p(s).Failure? ==> q(s) == Failure(p(s).error, p(s).state)
    ensures forall s: Scan :: p(s).Success? ==> q(s) == f(p(s).value)(p(s).state)
  {
    (s: Scan) =>
      match p(s)
      case Failure(err, s1) => Failure(err, s1)
      case Success(val, s1) => f(val)(s1)
  }

  /** DiscardLeft(p, q): q's outcome after p succeeds; Bind with a function that ignores p's value. */
  function DiscardLeft<A, B>(p: Parser<A>, q: Parser<B>): (r: Parser<B>)
    ensures forall s: Scan :: r(s) == Bind(p, (_: A) => q)(s)
    ensures Forward(p) && Forward(q) ==> Forward(r)
    ensures Forward(p) && Progress(q) ==> Progress(r)
  {
    (s: Scan) =>
      match p(s)
      case Failure(err, s1) => Failure(err, s1)
      case Success(_, s1) => q(s1)
  }

  /** DiscardRight(p, q): p's value, once q has succeeded after it. */
  function DiscardRight<A, B>(p: Parser<A>, q: Parser<B>): (r: Parser<A>)
    ensures forall s: Scan :: r(s) == Bind(p, (a: A) => Bind(q, (_: B) => Return(a)))(s)
    ensures Forward(p) && Forward(q) ==> Forward(r)
  {
    (s: Scan) =>
      match p(s)
      case Failure(err, s1) => Failure(err, s1)
      case Success(vala, s1) =>
        match q(s1)
        case Failure(err, s2) => Failure(err, s2)
        case Success(_, s2) => Success(vala, s2)
  }

  /** Wrap(left, p, right): p's value, once left before it and right after it have succeeded. */
  function Wrap<A, B, C>(left: Parser<A>, p: Parser<B>, right: Parser<C>): (r: Parser<B>)
    ensures forall s: Scan :: r(s) == Bind(left, (_: A) => Bind(p, (b: B) => Bind(right, (_: C) => Return(b))))(s)
  {
    DiscardRight(DiscardLeft(left, p), right)
  }

  /** Bind is associative, and Return is its identity on both sides. */
  lemma BindLaws<A, B, C>(v: A, p: Parser<A>, f: A -> Parser<B>, g: B -> Parser<C>, s: Scan)
    ensures Bind(Return(v), f)(s) == f(v)(s)
    ensures Bind(p, (a: A) => Return(a))(s) == p(s)
    ensures Bind(Bind(p, f), g)(s) == Bind(p, (a: A) => Bind(f(a), g))(s)
  {
  }

  /**
   * Finish(p) (scanner.go): p's value, provided p has consumed the whole
   * input; otherwise "unparsed input" with what is left.
   */
  function Finish<A>(p: Parser<A>): (q: Parser<A>)
    ensures forall s: Scan :: q(s).state == p(s).state
    ensures forall s: Scan :: q(s).Success? <==> p(s).Success? && p(s).state.pos == |s.input|
    ensures forall s: Scan :: q(s).Success? ==> q(s).value == p(s).value
    ensures forall s: Scan :: p(s).Failure? ==> q(s).error == p(s).error
    ensures forall s: Scan :: p(s).Success? && p(s).state.pos < |s.input| ==>
      q(s).error == UnparsedInput(s.input[p(s).state.pos..])
  {
    (s: Scan) =>
      match p(s)
      case Failure(err, s1) => Failure(err, s1)
      case Success(parsed, s1) =>
        if |s1.input[s1.pos..]| > 0 then Failure(UnparsedInput(s1.input[s1.pos..]), s1)
        else Success(parsed, s1)
  }

  /**
   * Location(p, f) (scanner.go): p, its value combined by f with the
   * positions p started and stopped at.
   */
  function Location<A, B>(p: Parser<A>, f: (nat, nat, A) -> B): (q: Parser<B>)
    ensures forall s: Scan :: q(s).state == p(s).state
    ensures forall s: Scan :: q(s).Success? <==> p(s).Success?
    ensures forall s: Scan :: p(s).Success? ==> q(s).value == f(s.pos, p(s).state.pos, p(s).value)
    ensures forall s: Scan :: p(s).Failure? ==> q(s).error == p(s).error
  {
    (s: Scan) =>
      var start := s.pos;
      match p(s)
      case Failure(err, s1) => Failure(err, s1)
      case Success(a, s1) => Success(f(start, s1.pos, a), s1)
  }
}
