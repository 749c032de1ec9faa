/**
 * The result package's Result (result/result.go): a value carried
 * together with the error that may have stopped it being computed. Go
 * fills the value of an errored result with the type's zero value; Dafny
 * has no zero values, so the functions that build such a result take the
 * zero as an argument.
 */
module ResultValue {
  import opened Errors

  datatype Result<T> = Result(value: T, err: Option<Error>)

  /** Unwrap: the value and the error, as a Go function would return them. */
  function Unwrap<T>(r: Result<T>): (f: Fallible<T>)
    ensures f.0 == r.value && f.1 == r.err
  {
    (r.value, r.err)
  }

  /** The result a Go function's (value, error) pair stands for. */
  function Wrap<T>(f: Fallible<T>): (r: Result<T>)
    ensures Unwrap(r) == f
  {
    Result(f.0, f.1)
  }

  /** Wrap and Unwrap are inverse to each other. */
  lemma WrapUnwrap<T>(r: Result<T>)
    ensures Wrap(Unwrap(r)) == r
  {
  }

  /** Flatten: a result holding a result becomes the inner result, unless the outer one holds an error. */
  function Flatten<T>(res: Result<Result<T>>, zero: T): (r: Result<T>)
    ensures res.err.Some? ==> r == Result(zero, res.err)
    ensures res.err.None? ==> r == res.value
  {
    if res.err.Some? then Result(zero, res.err) else res.value
  }

  /** A flattened result holds an error exactly when either level held one, the outer one taking precedence. */
  lemma FlattenErrors<T>(res: Result<Result<T>>, zero: T)
    ensures Flatten(res, zero).err.None? <==> res.err.None? && res.value.err.None?
    ensures Flatten(res, zero).err == if res.err.Some? then res.err else res.value.err
  {
  }

  /** UnwrapZero: the value, or the zero value when the result holds an error. */
  function UnwrapZero<T>(res: Result<T>, zero: T): (v: T)
    ensures res.err.None? ==> v == res.value
    ensures res.err.Some? ==> v == zero
  {
    var (value, err) := Unwrap(res);
    if err.Some? then zero else value
  }

  /** UnwrapOr: the value, or the fallback when the result holds an error. */
  function UnwrapOr<T>(res: Result<T>, fallback: T): (v: T)
    ensures res.err.None? ==> v == res.value
    ensures res.err.Some? ==> v == fallback
  {
    var (value, err) := Unwrap(res);
    if err.Some? then fallback else value
  }

  /** UnwrapZero is UnwrapOr with the zero value as the fallback. */
  lemma UnwrapZeroIsUnwrapOr<T>(res: Result<T>, zero: T)
    ensures UnwrapZero(res, zero) == UnwrapOr(res, zero)
  {
  }

  /** Flattening an error-free wrapping of r gives r back; flattening then unwrapping never looks at a discarded value. */
  lemma FlattenOfOk<T>(r: Result<T>, zero: T, fallback: T)
    ensures Flatten(Result(r, None), zero) == r
    ensures forall e: Error :: UnwrapOr(Flatten(Result(r, Some(e)), zero), fallback) == fallback
  {
  }
}
