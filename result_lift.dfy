/** Lifting fallible functions into Result-returning ones (result/lift.go). */
module ResultLift {
  import opened Errors
  import opened ResultValue
  import ResultMap

  /** Lift(f): f, its (value, error) pair returned as one Result. */
  function Lift<A(!new), B>(f: A -> Fallible<B>): (g: A -> Result<B>)
    ensures forall a: A :: Unwrap(g(a)) == f(a)
  {
    (a: A) => Wrap(f(a))
  }

  /** Lift2(f): the same for a function of two arguments. */
  function Lift2<A(!new), B(!new), C>(f: (A, B) -> Fallible<C>): (g: (A, B) -> Result<C>)
    ensures forall a: A, b: B :: Unwrap(g(a, b)) == f(a, b)
  {
    (a: A, b: B) => Wrap(f(a, b))
  }

  /** Lift3(f): the same for three arguments. */
  function Lift3<A(!new), B(!new), C(!new), D>(f: (A, B, C) -> Fallible<D>): (g: (A, B, C) -> Result<D>)
    ensures forall a: A, b: B, c: C :: Unwrap(g(a, b, c)) == f(a, b, c)
  {
    (a: A, b: B, c: C) => Wrap(f(a, b, c))
  }

  /** Lift4(f): the same for four arguments. */
  function Lift4<A(!new), B(!new), C(!new), D(!new), E>(f: (A, B, C, D) -> Fallible<E>): (g: (A, B, C, D) -> Result<E>)
    ensures forall a: A, b: B, c: C, d: D :: Unwrap(g(a, b, c, d)) == f(a, b, c, d)
  {
    (a: A, b: B, c: C, d: D) => Wrap(f(a, b, c, d))
  }

  /** A lifted function's result, mapped by g, is g applied to the function's value unless the function failed. */
  lemma MapAfterLift<A(!new), B, C>(f: A -> Fallible<B>, g: B -> Fallible<C>, a: A, zero: C)
    ensures f(a).1.Some? ==> ResultMap.Map(g, Lift(f)(a), zero) == Result(zero, f(a).1)
    ensures f(a).1.None? ==> Unwrap(ResultMap.Map(g, Lift(f)(a), zero)) == g(f(a).0)
  {
  }
}
