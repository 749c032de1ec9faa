/**
 * Lifting fallible Go functions over the results of parsers run in
 * sequence (lift.go), and the Error wrappers that turn a total function
 * into a fallible one that never fails.
 */
module AvramLift {
  import opened Errors
  import opened Replies
  import opened AvramScanner
  import opened AvramParser

  /** Error(f): f as a function that also returns a nil error. */
  function Error<A, B>(f: A -> B): A -> Fallible<B>
  {
    (a: A) => (f(a), None)
  }

  /** Error2(f): the same for a function of two arguments. */
  function Error2<A, B, C>(f: (A, B) -> C): (A, B) -> Fallible<C>
  {
    (a: A, b: B) => (f(a, b), None)
  }

  /** Error3(f): the same for three arguments. */
  function Error3<A, B, C, D>(f: (A, B, C) -> D): (A, B, C) -> Fallible<D>
  {
    (a: A, b: B, c: C) => (f(a, b, c), None)
  }

  /** Error4(f): the same for four arguments. */
  function Error4<A, B, C, D, E>(f: (A, B, C, D) -> E): (A, B, C, D) -> Fallible<E>
  {
    (a: A, b: B, c: C, d: D) => (f(a, b, c, d), None)
  }

  /** The parser that consumes nothing and answers with a Go function's (value, error) pair. */
  function Yield<B>(r: Fallible<B>): (p: Parser<B>)
    ensures forall s: Scan :: p(s).state == s
    ensures forall s: Scan :: p(s).Success? <==> r.1.None?
    ensures forall s: Scan :: p(s).Success? ==> p(s).value == r.0
    ensures forall s: Scan :: p(s).Failure? ==> r.1 == Some(p(s).error)
  {
    (s: Scan) => FromFallible(r, s)
  }

  /** Lift(f, p): p, then f applied to its value; a failure of either is the parser's failure. */
  function Lift<A, B>(f: A -> Fallible<B>, p: Parser<A>): (q: Parser<B>)
    ensures forall s: Scan :: q(s) == Bind(p, (a: A) => Yield(f(a)))(s)
  {
    (s: Scan) =>
      match p(s)
      case Failure(err, s1) => Failure(err, s1)
      case Success(vala, s1) => FromFallible(f(vala), s1)
  }

  /** Lift2(f, p1, p2): p1 then p2, then f of both values; the first failure is the parser's failure. */
  function Lift2<A, B, C>(f: (A, B) -> Fallible<C>, p1: Parser<A>, p2: Parser<B>): (q: Parser<C>)
    ensures forall s: Scan :: q(s) == Bind(p1, (a: A) => Bind(p2, (b: B) => Yield(f(a, b))))(s)
  {
    (s: Scan) =>
      match p1(s)
      case Failure(err, s1) => Failure(err, s1)
      case Success(vala, s1) =>
        match p2(s1)
        case Failure(err, s2) => Failure(err, s2)
        case Success(valb, s2) => FromFallible(f(vala, valb), s2)
  }

  /** Lift3(f, p1, p2, p3): the three parsers in sequence, then f of their values. */
  function Lift3<A, B, C, D>(f: (A, B, C) -> Fallible<D>, p1: Parser<A>, p2: Parser<B>, p3: Parser<C>): (q: Parser<D>)
    ensures forall s: Scan :: q(s) == Bind(p1, (a: A) => Bind(p2, (b: B) => Bind(p3, (c: C) => Yield(f(a, b, c)))))(s)
  {
    (s: Scan) =>
      match p1(s)
      case Failure(err, s1) => Failure(err, s1)
      case Success(vala, s1) =>
        match p2(s1)
        case Failure(err, s2) => Failure(err, s2)
        case Success(valb, s2) =>
          match p3(s2)
          case Failure(err, s3) => Failure(err, s3)
          case Success(valc, s3) => FromFallible(f(vala, valb, valc), s3)
  }

  /** Lift4(f, p1, p2, p3, p4): the four parsers in sequence, then f of their values. */
  function Lift4<A, B, C, D, E>(f: (A, B, C, D) -> Fallible<E>, p1: Parser<A>, p2: Parser<B>, p3: Parser<C>, p4: Parser<D>): (q: Parser<E>)
    ensures forall s: Scan :: q(s) == Bind(p1, (a: A) => Bind(p2, (b: B) => Bind(p3, (c: C) => Bind(p4, (d: D) => Yield(f(a, b, c, d))))))(s)
  {
    (s: Scan) =>
      match p1(s)
      case Failure(err, s1) => Failure(err, s1)
      case Success(vala, s1) =>
        match p2(s1)
        case Failure(err, s2) => Failure(err, s2)
        case Success(valb, s2) =>
          match p3(s2)
          case Failure(err, s3) => Failure(err, s3)
          case Success(valc, s3) =>
            match p4(s3)
            case Failure(err, s4) => Failure(err, s4)
            case Success(vald, s4) => FromFallible(f(vala, valb, valc, vald), s4)
  }

  /** Lift over an Error-wrapped function fails exactly when p does, and otherwise maps p's value. */
  lemma LiftTotal<A, B>(f: A -> B, p: Parser<A>, s: Scan)
    ensures var r := Lift(Error(f), p)(s);
      (r.Success? <==> p(s).Success?) && r.state == p(s).state &&
      (r.Success? ==> r.value == f(p(s).value)) && (r.Failure? ==> r.error == p(s).error)
  {
  }

  /** Lift2 over an Error2-wrapped function fails exactly when one of its parsers does. */
  lemma Lift2Total<A, B, C>(f: (A, B) -> C, p1: Parser<A>, p2: Parser<B>, s: Scan)
    ensures var r := Lift2(Error2(f), p1, p2)(s);
      var s1 := p1(s).state;
      (r.Success? <==> p1(s).Success? && p2(s1).Success?) &&
      (r.Success? ==> r == Success(f(p1(s).value, p2(s1).value), p2(s1).state))
  {
  }

  /** Lift3 over an Error3-wrapped function fails exactly when one of its parsers does. */
  lemma Lift3Total<A, B, C, D>(f: (A, B, C) -> D, p1: Parser<A>, p2: Parser<B>, p3: Parser<C>, s: Scan)
    ensures var r := Lift3(Error3(f), p1, p2, p3)(s);
      var s1 := p1(s).state; var s2 := p2(s1).state;
      (r.Success? <==> p1(s).Success? && p2(s1).Success? && p3(s2).Success?) &&
      (r.Success? ==> r == Success(f(p1(s).value, p2(s1).value, p3(s2).value), p3(s2).state))
  {
  }

  /** Lift4 over an Error4-wrapped function fails exactly when one of its parsers does. */
  lemma Lift4Total<A, B, C, D, E>(f: (A, B, C, D) -> E, p1: Parser<A>, p2: Parser<B>, p3: Parser<C>, p4: Parser<D>, s: Scan)
    ensures var r := Lift4(Error4(f), p1, p2, p3, p4)(s);
      var s1 := p1(s).state; var s2 := p2(s1).state; var s3 := p3(s2).state;
      (r.Success? <==> p1(s).Success? && p2(s1).Success? && p3(s2).Success? && p4(s3).Success?) &&
      (r.Success? ==> r == Success(f(p1(s).value, p2(s1).value, p3(s2).value, p4(s3).value), p4(s3).state))
  {
  }

  /** An error of f surfaces only once every parser has succeeded, where the last one stopped. */
  lemma Lift2FunctionError<A, B, C>(f: (A, B) -> Fallible<C>, p1: Parser<A>, p2: Parser<B>, s: Scan)
    requires p1(s).Success? && p2(p1(s).state).Success?
    ensures var r := Lift2(f, p1, p2)(s); var s2 := p2(p1(s).state);
      r.state == s2.state && (r.Failure? <==> f(p1(s).value, s2.value).1.Some?) &&
      (r.Failure? ==> Some(r.error) == f(p1(s).value, s2.value).1)
  {
  }
}
