/**
 * The avramx parser type and its basic combinators (avramx/parser.go).
 * A Go Parser[T, A] is a function of a *Scanner[T]; here it is a
 * function of the scanner's state that replies with its result and the
 * state it leaves behind.
 */
module AvramxParser {
  import opened Errors
  import opened Replies
  import opened AvramxScanner

  /** What running a parser may do to a scanner: the source stays the same and the buffer only grows. */
  ghost predicate Extends<T>(s: Scan<T>, s': Scan<T>)
  {
    s'.src == s.src && s.buffer <= s'.buffer
  }

  ghost predicate Sound<T(!new), A>(p: Scan<T> -> Reply<Scan<T>, A>)
  {
    forall s: Scan<T> :: Extends(s, p(s).state)
  }

  type Parser<!T(!new), A> = p: Scan<T> -> Reply<Scan<T>, A> | Sound(p)
    witness (s: Scan<T>) => Failure(EOF, s)

  /** p never moves the position backwards. */
  ghost predicate Forward<T(!new), A>(p: Parser<T, A>)
  {
    forall s: Scan<T> :: p(s).state.pos >= s.pos
  }

  /** Whenever p succeeds it has consumed at least one element: what repetition needs to end. */
  ghost predicate Progress<T(!new), A>(p: Parser<T, A>)
  {
    forall s: Scan<T> :: p(s).Success? ==> p(s).state.pos > s.pos
  }

  /** Parse: run p on a new scanner over the elements an iterator yields. */
  function Parse<T(!new), A>(input: seq<T>, p: Parser<T, A>): (r: Reply<Scan<T>, A>)
    ensures r.state.src == input
    ensures r == p(NewScan(input))
  {
    p(NewScan(input))
  }

  /** One run of Match(rule) from s. */
  function MatchStep<T>(rule: T -> Option<Error>, s: Scan<T>): (r: Reply<Scan<T>, T>)
    ensures Extends(s, r.state)
  {
    match ReadStep(s)
    case Failure(err, s1) => Failure(err, s1)
    case Success(got, s1) =>
      match rule(got)
      case Some(err) => Failure(err, s1)
      case None => Success(got, s1)
  }

  /**
   * Match(rule): read one element and accept it when rule reports no
   * error. A rejected element stays consumed.
   */
  function Match<T(!new)>(rule: T -> Option<Error>): (p: Parser<T, T>)
    ensures forall s: Scan<T> :: p(s).Success? <==> s.pos < |s.src| && rule(s.src[s.pos]).None?
    ensures forall s: Scan<T> :: p(s).Success? ==> p(s).value == s.src[s.pos]
    ensures forall s: Scan<T> :: s.pos < |s.src| ==> p(s).state.pos == s.pos + 1
    ensures forall s: Scan<T> :: s.pos < |s.src| && rule(s.src[s.pos]).Some? ==> p(s).error == rule(s.src[s.pos]).value
    ensures forall s: Scan<T> :: s.pos == |s.src| ==> p(s) == Failure(EOF, s)
  {
    (s: Scan<T>) => MatchStep(rule, s)
  }

  /** Match consumes exactly one element whenever one is left, and never moves back. */
  lemma MatchAdvances<T(!new)>(rule: T -> Option<Error>)
    ensures Forward(Match(rule)) && Progress(Match(rule))
  {
  }

  /** Name(name, p): p, with its failures reported as "<name> failed: <error>". */
  function Name<T(!new), A>(name: string, p: Parser<T, A>): (q: Parser<T, A>)
    ensures forall s: Scan<T> :: q(s).state == p(s).state
    ensures forall s: Scan<T> :: q(s).Success? <==> p(s).Success?
    ensures forall s: Scan<T> :: p(s).Success? ==> q(s).value == p(s).value
    ensures forall s: Scan<T> :: p(s).Failure? ==> q(s).error == Named(name, p(s).error)
  {
    (s: Scan<T>) =>
      match p(s)
      case Failure(err, s1) => Failure(Named(name, err), s1)
      case Success(val, s1) => Success(val, s1)
  }

  /** Maybe(p): p's value if it succeeds; otherwise nothing, with the position back where it was. Never fails. */
  function Maybe<T(!new), A>(p: Parser<T, A>): (q: Parser<T, Option<A>>)
    ensures forall s: Scan<T> :: q(s).Success?
    ensures forall s: Scan<T> :: p(s).Success? ==> q(s) == Success(Some(p(s).value), p(s).state)
    ensures forall s: Scan<T> :: p(s).Failure? ==>
      q(s).value == None && q(s).state.pos == s.pos && q(s).state.buffer == p(s).state.buffer
  {
    (s: Scan<T>) =>
      var checkpoint := s.pos;
      match p(s)
      case Failure(_, s1) => Success(None, Restore(s1, checkpoint))
      case Success(out, s1) => Success(Some(out), s1)
  }

  /** LookAhead(p): p's outcome, with the position put back whether it succeeded or not. */
  function LookAhead<T(!new), A>(p: Parser<T, A>): (q: Parser<T, A>)
    ensures forall s: Scan<T> :: q(s).state.pos == s.pos && q(s).state.buffer == p(s).state.buffer
    ensures forall s: Scan<T> :: q(s).Success? <==> p(s).Success?
    ensures forall s: Scan<T> :: p(s).Success? ==> q(s).value == p(s).value
    ensures forall s: Scan<T> :: p(s).Failure? ==> q(s).error == p(s).error
  {
    (s: Scan<T>) =>
      var checkpoint := s.pos;
      match p(s)
      case Failure(err, s1) => Failure(err, Restore(s1, checkpoint))
      case Success(val, s1) => Success(val, Restore(s1, checkpoint))
  }

  /** Return(v): succeed with v and consume nothing. */
  function Return<T(!new), A>(v: A): (p: Parser<T, A>)
    ensures forall s: Scan<T> :: p(s) == Success(v, s)
  {
    (s: Scan<T>) => Success(v, s)
  }

  /** Fail(err): fail with err and consume nothing. */
  function Fail<T(!new), A>(err: Error): (p: Parser<T, A>)
    ensures forall s: Scan<T> :: p(s) == Failure(err, s)
  {
    (s: Scan<T>) => Failure(err, s)
  }

  /** Assert(p, pred, fail): p's value if pred accepts it, otherwise the error fail makes of it, where p left off. */
  function Assert<T(!new), A>(p: Parser<T, A>, pred: A -> bool, fail: A -> Error): (q: Parser<T, A>)
    ensures forall s: Scan<T> :: q(s).state == p(s).state
    ensures forall s: Scan<T> :: q(s).Success? <==> p(s).Success? && pred(p(s).value)
    ensures forall s: Scan<T> :: q(s).Success? ==> q(s).value == p(s).value
    ensures forall s: Scan<T> :: p(s).Failure? ==> q(s).error == p(s).error
    ensures forall s: Scan<T> :: p(s).Success? && !pred(p(s).value) ==> q(s).error == fail(p(s).value)
  {
    (s: Scan<T>) =>
      match p(s)
      case Failure(err, s1) => Failure(err, s1)
      case Success(out, s1) => if !pred(out) then Failure(fail(out), s1) else Success(out, s1)
  }

  /** Bind(p, f): run p, then the parser f makes of its value, from where p stopped. */
  function Bind<T(!new), A, B>(p: Parser<T, A>, f: A -> Parser<T, B>): (q: Parser<T, B>)
    ensures forall s: Scan<T> :: p(s).Failure? ==> q(s) == Failure(p(s).error, p(s).state)
    ensures forall s: Scan<T> :: p(s).Success? ==> q(s) == f(p(s).value)(p(s).state)
  {
    (s: Scan<T>) =>
      match p(s)
      case Failure(err, s1) => Failure(err, s1)
      case Success(val, s1) => f(val)(s1)
  }

  /** DiscardLeft(p, q): q's outcome after p succeeds; it is Bind with a function that ignores p's value. */
  function DiscardLeft<T(!new), A, B>(p: Parser<T, A>, q: Parser<T, B>): (r: Parser<T, B>)
    ensures forall s: Scan<T> :: r(s) == Bind(p, (_: A) => q)(s)
    ensures Forward(p) && Progress(q) ==> Progress(r)
  {
    (s: Scan<T>) =>
      match p(s)
      case Failure(err, s1) => Failure(err, s1)
      case Success(_, s1) => q(s1)
  }

  /** DiscardRight(p, q): p's value, once q has succeeded after it. */
  function DiscardRight<T(!new), A, B>(p: Parser<T, A>, q: Parser<T, B>): (r: Parser<T, A>)
    ensures forall s: Scan<T> :: r(s) == Bind(p, (a: A) => Bind(q, (_: B) => Return(a)))(s)
  {
    (s: Scan<T>) =>
      match p(s)
      case Failure(err, s1) => Failure(err, s1)
      case Success(vala, s1) =>
        match q(s1)
        case Failure(err, s2) => Failure(err, s2)
        case Success(_, s2) => Success(vala, s2)
  }

  /** Wrap(left, p, right): p's value, once left before it and right after it have succeeded. */
  function Wrap<T(!new), A, B, C>(left: Parser<T, A>, p: Parser<T, B>, right: Parser<T, C>): (r: Parser<T, B>)
    ensures forall s: Scan<T> :: r(s) == Bind(left, (_: A) => Bind(p, (b: B) => Bind(right, (_: C) => Return(b))))(s)
  {
    DiscardRight(DiscardLeft(left, p), right)
  }

  /** Return is a left identity of Bind. */
  lemma BindReturnLeft<T(!new), A, B>(v: A, f: A -> Parser<T, B>, s: Scan<T>)
    ensures Bind(Return(v), f)(s) == f(v)(s)
  {
  }

  /** Return is a right identity of Bind. */
  lemma BindReturnRight<T(!new), A>(p: Parser<T, A>, s: Scan<T>)
    ensures Bind(p, (a: A) => Return(a))(s) == p(s)
  {
  }

  /** Bind is associative. */
  lemma BindAssociative<T(!new), A, B, C>(p: Parser<T, A>, f: A -> Parser<T, B>, g: B -> Parser<T, C>, s: Scan<T>)
    ensures Bind(Bind(p, f), g)(s) == Bind(p, (a: A) => Bind(f(a), g))(s)
  {
  }

  /** A failing parser absorbs whatever is bound after it. */
  lemma BindFailLeft<T(!new), A, B>(err: Error, f: A -> Parser<T, B>, s: Scan<T>)
    ensures Bind(Fail(err), f)(s) == Failure(err, s)
  {
  }
}
