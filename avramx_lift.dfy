/**
 * Lifting fallible Go functions over the results of parsers run in
 * sequence (avramx/lift.go), and the helpers of avramx/combinators.go that
 * turn a total function into a fallible one.
 */
module AvramxLift {
  import opened Errors
  import opened Replies
  import opened AvramxScanner
  import opened AvramxParser

  /** The parser that consumes nothing and answers with a Go function's (value, error) pair. */
  function Yield<T(!new), B>(r: Fallible<B>): (p: Parser<T, B>)
    ensures forall s: Scan<T> :: p(s).state == s
    ensures forall s: Scan<T> :: p(s).Success? <==> r.1.None?
    ensures forall s: Scan<T> :: p(s).Success? ==> p(s).value == r.0
    ensures forall s: Scan<T> :: p(s).Failure? ==> r.1 == Some(p(s).error)
  {
    (s: Scan<T>) => FromFallible(r, s)
  }

  /** success: a total function as a fallible one that never fails. */
  function Succeed<A, B>(f: A -> B): A -> Fallible<B>
  {
    (a: A) => (f(a), None)
  }

  /** success2: the same for a function of two arguments. */
  function Succeed2<A, B, C>(f: (A, B) -> C): (A, B) -> Fallible<C>
  {
    (a: A, b: B) => (f(a, b), None)
  }

  /** Lift(f, p): p, then f applied to its value; a failure of either is the parser's failure. */
  function Lift<T(!new), A, B>(f: A -> Fallible<B>, p: Parser<T, A>): (q: Parser<T, B>)
    ensures forall s: Scan<T> :: q(s) == Bind(p, (a: A) => Yield(f(a)))(s)
  {
    (s: Scan<T>) =>
      match p(s)
      case Failure(err, s1) => Failure(err, s1)
      case Success(vala, s1) => FromFallible(f(vala), s1)
  }

  /** Lift2(f, p1, p2): p1 then p2 in sequence, then f of both values; the first failure is the parser's failure. */
  function Lift2<T(!new), A, B, C>(f: (A, B) -> Fallible<C>, p1: Parser<T, A>, p2: Parser<T, B>): (q: Parser<T, C>)
    ensures forall s: Scan<T> :: q(s) == Bind(p1, (a: A) => Bind(p2, (b: B) => Yield(f(a, b))))(s)
  {
    (s: Scan<T>) =>
      match p1(s)
      case Failure(err, s1) => Failure(err, s1)
      case Success(vala, s1) =>
        match p2(s1)
        case Failure(err, s2) => Failure(err, s2)
        case Success(valb, s2) => FromFallible(f(vala, valb), s2)
  }

  /** Lift3(f, p1, p2, p3): the three parsers in sequence, then f of their values. */
  function Lift3<T(!new), A, B, C, D>(f: (A, B, C) -> Fallible<D>, p1: Parser<T, A>, p2: Parser<T, B>, p3: Parser<T, C>): (q: Parser<T, D>)
    ensures forall s: Scan<T> :: q(s) == Bind(p1, (a: A) => Bind(p2, (b: B) => Bind(p3, (c: C) => Yield(f(a, b, c)))))(s)
  {
    (s: Scan<T>) =>
      match p1(s)
      case Failure(err, s1) => Failure(err, s1)
      case Success(vala, s1) =>
        match p2(s1)
        case Failure(err, s2) => Failure(err, s2)
        case Success(valb, s2) =>
          match p3(s2)
          case Failure(err, s3) => Failure(err, s3)
          case Success(valc, s3) => FromFallible(f(vala, valb, valc), s3)
  }

  /** Lift4(f, p1, p2, p3, p4): the four parsers in sequence, then f of their values. */
  function Lift4<T(!new), A, B, C, D, E>(f: (A, B, C, D) -> Fallible<E>, p1: Parser<T, A>, p2: Parser<T, B>, p3: Parser<T, C>, p4: Parser<T, D>): (q: Parser<T, E>)
    ensures forall s: Scan<T> :: q(s) == Bind(p1, (a: A) => Bind(p2, (b: B) => Bind(p3, (c: C) => Bind(p4, (d: D) => Yield(f(a, b, c, d))))))(s)
  {
    (s: Scan<T>) =>
      match p1(s)
      case Failure(err, s1) => Failure(err, s1)
      case Success(vala, s1) =>
        match p2(s1)
        case Failure(err, s2) => Failure(err, s2)
        case Success(valb, s2) =>
          match p3(s2)
          case Failure(err, s3) => Failure(err, s3)
          case Success(valc, s3) =>
            match p4(s3)
            case Failure(err, s4) => Failure(err, s4)
            case Success(vald, s4) => FromFallible(f(vala, valb, valc, vald), s4)
  }

  /**
   * Lifting a total function (through success2) fails exactly when one of
   * the two parsers does, and otherwise answers f of both values where
   * the second parser stopped.
   */
  lemma Lift2Total<T(!new), A, B, C>(f: (A, B) -> C, p1: Parser<T, A>, p2: Parser<T, B>, s: Scan<T>)
    ensures var r := Lift2(Succeed2(f), p1, p2)(s);
      (r.Success? <==> p1(s).Success? && p2(p1(s).state).Success?) &&
      (r.Success? ==> r == Success(f(p1(s).value, p2(p1(s).state).value), p2(p1(s).state).state))
  {
  }
}
