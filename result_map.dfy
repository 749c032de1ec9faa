/** Map over a Result (result/map.go). */
module ResultMap {
  import opened Errors
  import opened ResultValue
  import AvramLift

  /**
   * Map(f, res, zero): f applied to the value of res. An error in res is
   * passed on, with the zero value, and f is not applied; otherwise the
   * result is f's value and f's error, whatever that error is.
   */
  function Map<A, B>(f: A -> Fallible<B>, res: Result<A>, zero: B): (r: Result<B>)
    ensures res.err.Some? ==> r == Result(zero, res.err)
    ensures res.err.None? ==> Unwrap(r) == f(res.value)
  {
    var (value, err) := Unwrap(res);
    if err.Some? then Result(zero, err)
    else
      var (out, err2) := f(value);
      Result(out, err2)
  }

  /** Mapping a total function (wrapped by Error) never introduces an error. */
  lemma MapTotal<A, B>(f: A -> B, res: Result<A>, zero: B)
    ensures Map(AvramLift.Error(f), res, zero).err == res.err
    ensures res.err.None? ==> Map(AvramLift.Error(f), res, zero).value == f(res.value)
  {
  }

  /** Mapping the error-free identity keeps every result that holds no error. */
  lemma MapIdentity<A>(res: Result<A>, zero: A, fallback: A)
    ensures Map((a: A) => (a, None), res, zero).err == res.err
    ensures UnwrapOr(Map((a: A) => (a, None), res, zero), fallback) == UnwrapOr(res, fallback)
  {
  }

  /** f then g, stopping at the first error: the function two Maps in a row apply. */
  function AndThen<A, B, C>(f: A -> Fallible<B>, g: B -> Fallible<C>, zero: C): A -> Fallible<C>
  {
    (a: A) => if f(a).1.Some? then (zero, f(a).1) else g(f(a).0)
  }

  /** Two Maps in a row are one Map of the two functions chained. */
  lemma MapComposes<A, B, C>(f: A -> Fallible<B>, g: B -> Fallible<C>, res: Result<A>, zb: B, zc: C)
    ensures Map(g, Map(f, res, zb), zc) == Map(AndThen(f, g, zc), res, zc)
  {
  }
}
