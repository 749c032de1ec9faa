/** The small function helpers of the root engine (lazy.go). */
module AvramLazy {
  import opened Errors
  import AvramLift

  /**
   * Must(f): f's value, for an argument on which f reports no error. Go
   * panics on the others; here they are outside the function's domain.
   */
  function Must<A(!new), B>(f: A -> Fallible<B>): (g: A --> B)
    ensures forall a: A :: f(a).1.None? ==> g.requires(a) && g(a) == f(a).0
  {
    (a: A) requires f(a).1.None? => f(a).0
  }

  /** Must takes back what Error does: a total function wrapped and unwrapped is itself. */
  lemma MustOfError<A(!new), B>(f: A -> B, a: A)
    ensures Must(AvramLift.Error(f)).requires(a) && Must(AvramLift.Error(f))(a) == f(a)
  {
  }

  /** prepend(first, rest): a new sequence that starts with first and goes on with rest. */
  function Prepend<A>(first: A, rest: seq<A>): (r: seq<A>)
    ensures |r| == |rest| + 1 && r[0] == first && r[1..] == rest
  {
    [first] + rest
  }

  /** negate(f): the predicate that holds exactly where f does not. */
  function Negate<T(!new)>(f: T -> bool): (g: T -> bool)
    ensures forall t: T :: g(t) == !f(t)
  {
    (t: T) => !f(t)
  }

  /** Negating twice gives back a predicate that agrees with f everywhere. */
  lemma NegateTwice<T(!new)>(f: T -> bool, t: T)
    ensures Negate(Negate(f))(t) == f(t)
  {
  }
}
