/**
 * Repetition, sequencing and recursion combinators of the avramx engine
 * (avramx/combinators.go). Each Go loop is modelled twice: a recursive
 * function that states what the loop computes, and a method with the
 * loop itself, proved to compute it.
 */
module AvramxCombinators {
  import opened Errors
  import opened Replies
  import opened AvramxScanner
  import opened AvramxParser
  import opened AvramxAlternatives
  import opened AvramxLift
  import opened AvramxPair

  /** prepend(first, rest): the sequence that starts with first and goes on with rest. */
  function Prepend<A>(first: A, rest: seq<A>): (r: seq<A>)
    ensures |r| == |rest| + 1 && r[0] == first && r[1..] == rest
  {
    [first] + rest
  }

  /** The reply r with prefix put in front of its value when it succeeded. */
  function PrefixedBy<S, A>(prefix: seq<A>, r: Reply<S, seq<A>>): Reply<S, seq<A>>
  {
    if r.Success? then Success(prefix + r.value, r.state) else r
  }

  lemma PrefixedByNothing<S, A>(r: Reply<S, seq<A>>)
    ensures PrefixedBy([], r) == r
  {
    if r.Success? {
      assert [] + r.value == r.value;
    }
  }

  lemma PrefixedByTwice<S, A>(a: seq<A>, b: seq<A>, r: Reply<S, seq<A>>)
    ensures PrefixedBy(a, PrefixedBy(b, r)) == PrefixedBy(a + b, r)
  {
    if r.Success? {
      assert a + (b + r.value) == (a + b) + r.value;
    }
  }

  /**
   * Option(fallback, p): p's value, or fallback when p fails. It never
   * fails, and it does not rewind what a failing p consumed.
   */
  function Option<T(!new), A>(fallback: A, p: Parser<T, A>): (q: Parser<T, A>)
    ensures forall s: Scan<T> :: q(s).Success? && q(s).state == p(s).state
    ensures forall s: Scan<T> :: q(s).value == if p(s).Success? then p(s).value else fallback
  {
    (s: Scan<T>) =>
      match p(s)
      case Failure(_, s1) => Success(fallback, s1)
      case Success(val, s1) => Success(val, s1)
  }

  /** Option(x, p) and Or(p, Return(x)) give the same value; only Or rewinds a failed p. */
  lemma OptionAgainstOr<T(!new), A>(fallback: A, p: Parser<T, A>, s: Scan<T>)
    ensures Option(fallback, p)(s).value == Or(p, Return(fallback))(s).value
    ensures p(s).Success? ==> Option(fallback, p)(s) == Or(p, Return(fallback))(s)
    ensures p(s).Failure? ==> Or(p, Return(fallback))(s).state == Restore(Option(fallback, p)(s).state, s.pos)
  {
  }

  /** Both(p, q): p then q, with both values as a pair. */
  function Both<T(!new), A, B>(p: Parser<T, A>, q: Parser<T, B>): (r: Parser<T, Pair<A, B>>)
    ensures forall s: Scan<T> :: r(s).Success? <==> p(s).Success? && q(p(s).state).Success?
    ensures forall s: Scan<T> :: r(s).Success? ==> r(s) == Success(Pair(p(s).value, q(p(s).state).value), q(p(s).state).state)
    ensures forall s: Scan<T> :: p(s).Failure? ==> r(s) == Failure(p(s).error, p(s).state)
    ensures forall s: Scan<T> :: p(s).Success? && q(p(s).state).Failure? ==> r(s) == Failure(q(p(s).state).error, q(p(s).state).state)
    ensures Forward(p) && Progress(q) ==> Progress(r)
  {
    Lift2((a: A, b: B) => (MakePair(a, b), None), p, q)
  }

  /** List's loop from ps[0] on: every parser in turn, stopping at the first failure. */
  function ListFrom<T(!new), A>(ps: seq<Parser<T, A>>, s: Scan<T>): (r: Reply<Scan<T>, seq<A>>)
    ensures Extends(s, r.state)
    ensures r.Success? ==> |r.value| == |ps|
    decreases |ps|
  {
    if ps == [] then Success([], s)
    else
      match ps[0](s)
      case Failure(err, s1) => Failure(err, s1)
      case Success(val, s1) => PrefixedBy([val], ListFrom(ps[1..], s1))
  }

  /** List(ps): each parser of ps in sequence, with their values in order, or the first failure. */
  function List<T(!new), A>(ps: seq<Parser<T, A>>): (q: Parser<T, seq<A>>)
    ensures forall s: Scan<T> :: q(s).Success? ==> |q(s).value| == |ps|
    ensures forall s: Scan<T> :: ps == [] ==> q(s) == Success([], s)
  {
    (s: Scan<T>) => ListFrom(ps, s)
  }

  /** A list of parsers is its first parser, then the list of the rest, the values joined by prepend. */
  lemma ListCons<T(!new), A>(p: Parser<T, A>, ps: seq<Parser<T, A>>, s: Scan<T>)
    ensures List([p] + ps)(s) == Lift2((a: A, rest: seq<A>) => (Prepend(a, rest), None), p, List(ps))(s)
  {
    assert ([p] + ps)[1..] == ps;
  }

  /** List's for loop, run on a scanner state. */
  method RunList<T(!new), A>(ps: seq<Parser<T, A>>, s: Scan<T>) returns (r: Reply<Scan<T>, seq<A>>)
    ensures r == List(ps)(s)
  {
    var out: seq<A> := [];
    var cur := s;
    PrefixedByNothing(ListFrom(ps, s));
    for i := 0 to |ps|
      invariant ListFrom(ps, s) == PrefixedBy(out, ListFrom(ps[i..], cur))
    {
      assert ps[i..][1..] == ps[i + 1..];
      var res := ps[i](cur);
      if res.Failure? {
        return Failure(res.error, res.state);
      }
      PrefixedByTwice(out, [res.value], ListFrom(ps[i + 1..], res.state));
      out := out + [res.value];
      cur := res.state;
    }
    assert out + [] == out;
    return Success(out, cur);
  }

  /** Count's loop with n runs of p left. */
  function CountFrom<T(!new), A>(n: nat, p: Parser<T, A>, s: Scan<T>): (r: Reply<Scan<T>, seq<A>>)
    ensures Extends(s, r.state)
    ensures r.Success? ==> |r.value| == n
    decreases n
  {
    if n == 0 then Success([], s)
    else
      match p(s)
      case Failure(err, s1) => Failure(err, s1)
      case Success(val, s1) => PrefixedBy([val], CountFrom(n - 1, p, s1))
  }

  /** Count(n, p): p exactly n times (no time at all when n is not positive), with the values in order. */
  function Count<T(!new), A>(n: int, p: Parser<T, A>): (q: Parser<T, seq<A>>)
    ensures forall s: Scan<T> :: q(s).Success? ==> |q(s).value| == if n < 0 then 0 else n
    ensures forall s: Scan<T> :: n <= 0 ==> q(s) == Success([], s)
  {
    (s: Scan<T>) => CountFrom(if n < 0 then 0 else n, p, s)
  }

  /** n copies of p. */
  function Copies<T(!new), A>(n: nat, p: Parser<T, A>): (ps: seq<Parser<T, A>>)
    ensures |ps| == n && forall i :: 0 <= i < n ==> ps[i] == p
  {
    if n == 0 then [] else [p] + Copies(n - 1, p)
  }

  /** Count(n, p) is List of n copies of p. */
  lemma {:induction false} CountIsList<T(!new), A>(n: nat, p: Parser<T, A>, s: Scan<T>)
    ensures Count(n, p)(s) == List(Copies(n, p))(s)
    decreases n
  {
    if n > 0 {
      var r := p(s);
      assert Copies(n, p)[1..] == Copies(n - 1, p);
      if r.Success? {
        CountIsList(n - 1, p, r.state);
      }
    }
  }

  /** Count's for loop, run on a scanner state. */
  method RunCount<T(!new), A>(n: int, p: Parser<T, A>, s: Scan<T>) returns (r: Reply<Scan<T>, seq<A>>)
    ensures r == Count(n, p)(s)
  {
    ghost var total: nat := if n < 0 then 0 else n;
    var out: seq<A> := [];
    var cur := s;
    var i := 0;
    PrefixedByNothing(CountFrom(total, p, s));
    while i < n
      invariant 0 <= i <= total
      invariant CountFrom(total, p, s) == PrefixedBy(out, CountFrom(total - i, p, cur))
    {
      var res := p(cur);
      if res.Failure? {
        return Failure(res.error, res.state);
      }
      PrefixedByTwice(out, [res.value], CountFrom(total - i - 1, p, res.state));
      out := out + [res.value];
      cur := res.state;
      i := i + 1;
    }
    assert out + [] == out;
    return Success(out, cur);
  }

  /** Many's loop from s: run p until it fails, then rewind to where that last attempt started. */
  function ManyFrom<T(!new), A>(p: Parser<T, A>, s: Scan<T>): (r: Reply<Scan<T>, seq<A>>)
    requires Progress(p)
    ensures r.Success? && Extends(s, r.state) && r.state.pos >= s.pos
    ensures |r.value| <= r.state.pos - s.pos
    decreases Remaining(s)
  {
    match p(s)
    case Failure(_, s1) => Success([], Restore(s1, s.pos))
    case Success(val, s1) => PrefixedBy([val], ManyFrom(p, s1))
  }

  /**
   * Many(p): p as many times as it succeeds, with the values in order. It
   * never fails, and each value stands for at least one consumed element.
   * A p that can succeed without consuming makes the Go loop run forever,
   * hence the requirement.
   */
  function Many<T(!new), A>(p: Parser<T, A>): (q: Parser<T, seq<A>>)
    requires Progress(p)
    ensures forall s: Scan<T> :: q(s).Success? && q(s).state.pos >= s.pos
    ensures forall s: Scan<T> :: |q(s).value| <= q(s).state.pos - s.pos
  {
    (s: Scan<T>) => ManyFrom(p, s)
  }

  /** Many's loop, run on a scanner state. */
  method RunMany<T(!new), A>(p: Parser<T, A>, s: Scan<T>) returns (r: Reply<Scan<T>, seq<A>>)
    requires Progress(p)
    ensures r == Many(p)(s)
  {
    var out: seq<A> := [];
    var cur := s;
    PrefixedByNothing(ManyFrom(p, s));
    while true
      invariant ManyFrom(p, s) == PrefixedBy(out, ManyFrom(p, cur))
      decreases Remaining(cur)
    {
      var checkpoint := cur.pos;
      var res := p(cur);
      if res.Failure? {
        assert out + [] == out;
        return Success(out, Restore(res.state, checkpoint));
      }
      PrefixedByTwice(out, [res.value], ManyFrom(p, res.state));
      out := out + [res.value];
      cur := res.state;
    }
  }

  /** Many1(p): p at least once, then as many times as it succeeds. */
  function Many1<T(!new), A>(p: Parser<T, A>): (q: Parser<T, seq<A>>)
    requires Progress(p)
    ensures forall s: Scan<T> :: q(s).Success? <==> p(s).Success?
    ensures forall s: Scan<T> :: p(s).Failure? ==> q(s) == Failure(p(s).error, p(s).state)
    ensures forall s: Scan<T> :: p(s).Success? ==>
      q(s) == Success([p(s).value] + Many(p)(p(s).state).value, Many(p)(p(s).state).state)
  {
    Lift2((a: A, rest: seq<A>) => (Prepend(a, rest), None), p, Many(p))
  }

  /** Many(p) is "Many1(p), or else nothing": the usual definition of repetition, here exactly. */
  lemma ManyIsMany1OrEmpty<T(!new), A>(p: Parser<T, A>, s: Scan<T>)
    requires Progress(p)
    ensures Many(p)(s) == Or(Many1(p), Return([]))(s)
  {
  }

  /**
   * ManyTill's loop from s: try e; when it succeeds stop, otherwise run p
   * from where e's attempt left the scanner.
   */
  function ManyTillFrom<T(!new), A, B>(p: Parser<T, A>, e: Parser<T, B>, s: Scan<T>): (r: Reply<Scan<T>, seq<A>>)
    requires Progress(p) && Forward(e)
    ensures Extends(s, r.state)
    decreases Remaining(s)
  {
    match e(s)
    case Success(_, s1) => Success([], s1)
    case Failure(_, s1) =>
      match p(s1)
      case Failure(err, s2) => Failure(err, s2)
      case Success(el, s2) => PrefixedBy([el], ManyTillFrom(p, e, s2))
  }

  /**
   * ManyTill(p, e) as written: the values of p up to the first success of
   * e. A failed attempt of e is not rewound, so p resumes after whatever
   * that attempt consumed.
   */
  function ManyTill<T(!new), A, B>(p: Parser<T, A>, e: Parser<T, B>): (q: Parser<T, seq<A>>)
    requires Progress(p) && Forward(e)
    ensures forall s: Scan<T> :: e(s).Success? ==> q(s) == Success([], e(s).state)
    ensures forall s: Scan<T> :: e(s).Failure? ==>
      q(s) == Lift2((a: A, rest: seq<A>) => (Prepend(a, rest), None), p, ManyTill(p, e))(e(s).state)
  {
    (s: Scan<T>) => ManyTillFrom(p, e, s)
  }

  /** ManyTill's loop, run on a scanner state. */
  method RunManyTill<T(!new), A, B>(p: Parser<T, A>, e: Parser<T, B>, s: Scan<T>) returns (r: Reply<Scan<T>, seq<A>>)
    requires Progress(p) && Forward(e)
    ensures r == ManyTill(p, e)(s)
  {
    var acc: seq<A> := [];
    var cur := s;
    PrefixedByNothing(ManyTillFrom(p, e, s));
    while true
      invariant ManyTillFrom(p, e, s) == PrefixedBy(acc, ManyTillFrom(p, e, cur))
      decreases Remaining(cur)
    {
      var end := e(cur);
      if end.Success? {
        assert acc + [] == acc;
        return Success(acc, end.state);
      }
      var el := p(end.state);
      if el.Failure? {
        return Failure(el.error, el.state);
      }
      PrefixedByTwice(acc, [el.value], ManyTillFrom(p, e, el.state));
      acc := acc + [el.value];
      cur := el.state;
    }
  }

  /**
   * ManyTill as its tests expect it: each failed attempt of e is rewound
   * before p runs, so e only looks for the terminator.
   */
  function ManyTillRewindFrom<T(!new), A, B>(p: Parser<T, A>, e: Parser<T, B>, s: Scan<T>): (r: Reply<Scan<T>, seq<A>>)
    requires Progress(p)
    ensures Extends(s, r.state)
    decreases Remaining(s)
  {
    match e(s)
    case Success(_, s1) => Success([], s1)
    case Failure(_, s1) =>
      match p(Restore(s1, s.pos))
      case Failure(err, s2) => Failure(err, s2)
      case Success(el, s2) => PrefixedBy([el], ManyTillRewindFrom(p, e, s2))
  }

  function ManyTillRewind<T(!new), A, B>(p: Parser<T, A>, e: Parser<T, B>): (q: Parser<T, seq<A>>)
    requires Progress(p)
    ensures forall s: Scan<T> :: e(s).Success? ==> q(s) == Success([], e(s).state)
    ensures forall s: Scan<T> :: e(s).Failure? ==>
      q(s) == Lift2((a: A, rest: seq<A>) => (Prepend(a, rest), None), p, ManyTillRewind(p, e))(Restore(e(s).state, s.pos))
  {
    (s: Scan<T>) => ManyTillRewindFrom(p, e, s)
  }

  /** The element rule of the tests: accept exactly the element want. */
  function Is<T(==)>(want: T): T -> Option<Error>
  {
    (got: T) => if got == want then None else Some(Message("unexpected element"))
  }

  /** Match(Is(want)), known to consume one element whenever one is left. */
  function Token<T(!new, ==)>(want: T): (p: Parser<T, T>)
    ensures Forward(p) && Progress(p)
    ensures forall s: Scan<T> :: p(s) == MatchStep(Is(want), s)
  {
    MatchAdvances(Is(want));
    Match(Is(want))
  }

  /** The tokens of the test: "hello", "hello", "world". */
  const HelloHelloWorld: seq<string> := ["hello", "hello", "world"]

  /** The scanner over HelloHelloWorld after pulling its first n tokens and reading them. */
  function Pulled(n: nat): Scan<string>
    requires n <= 3
  {
    ScanState(HelloHelloWorld, HelloHelloWorld[..n], n)
  }

  /** What the tokens "hello" and "world" do at each point of HelloHelloWorld. */
  lemma HelloHelloWorldSteps()
    ensures Token("world")(Pulled(0)) == Failure(Message("unexpected element"), Pulled(1))
    ensures Token("world")(Pulled(1)) == Failure(Message("unexpected element"), Pulled(2))
    ensures Token("world")(Pulled(2)) == Success("world", Pulled(3))
    ensures Token("hello")(Restore(Pulled(1), 0)) == Success("hello", Pulled(1))
    ensures Token("hello")(Pulled(1)) == Success("hello", Pulled(2))
    ensures Token("hello")(Restore(Pulled(2), 1)) == Success("hello", Pulled(2))
  {
    assert "hello" != "world" by { assert "hello"[0] != "world"[0]; }
    assert ReadStep(Pulled(0)) == Success("hello", Pulled(1));
    assert ReadStep(Pulled(1)) == Success("hello", Pulled(2));
    assert ReadStep(Pulled(2)) == Success("world", Pulled(3));
  }

  /**
   * On "hello hello world" with p matching "hello" and e matching "world",
   * ManyTill as written yields a single "hello": e's failed look at the
   * first "hello" consumes it.
   */
  lemma ManyTillSkipsTerminatorAttempts()
    ensures ManyTill(Token("hello"), Token("world"))(NewScan(HelloHelloWorld)) == Success(["hello"], Pulled(3))
  {
    var p := Token("hello");
    var e := Token("world");
    HelloHelloWorldSteps();
    assert ManyTillFrom(p, e, Pulled(2)) == Success([], Pulled(3));
    assert ManyTillFrom(p, e, Pulled(0)) == PrefixedBy(["hello"], ManyTillFrom(p, e, Pulled(2)));
    assert ["hello"] + [] == ["hello"];
    assert NewScan(HelloHelloWorld) == Pulled(0);
  }

  /** The rewinding ManyTill from the second "hello" on. */
  lemma ManyTillRewindFromSecond()
    ensures ManyTillRewindFrom(Token("hello"), Token("world"), Pulled(1)) == Success(["hello"], Pulled(3))
  {
    var p := Token("hello");
    var e := Token("world");
    HelloHelloWorldSteps();
    assert ManyTillRewindFrom(p, e, Pulled(2)) == Success([], Pulled(3));
    assert ManyTillRewindFrom(p, e, Pulled(1)) == PrefixedBy(["hello"], ManyTillRewindFrom(p, e, Pulled(2)));
    assert ["hello"] + [] == ["hello"];
  }

  /** The rewinding ManyTill yields both "hello"s on the same input. */
  lemma ManyTillRewindKeepsAll()
    ensures ManyTillRewind(Token("hello"), Token("world"))(NewScan(HelloHelloWorld)) == Success(["hello", "hello"], Pulled(3))
  {
    var p := Token("hello");
    var e := Token("world");
    HelloHelloWorldSteps();
    ManyTillRewindFromSecond();
    assert ManyTillRewindFrom(p, e, Pulled(0)) == PrefixedBy(["hello"], ManyTillRewindFrom(p, e, Pulled(1)));
    assert ["hello"] + ["hello"] == ["hello", "hello"];
    assert NewScan(HelloHelloWorld) == Pulled(0);
  }

  /** SepBy1(sep, p): one p, then as many "sep then p" as succeed, with the values of the p's in order. */
  function SepBy1<T(!new), A, B>(sep: Parser<T, A>, p: Parser<T, B>): (q: Parser<T, seq<B>>)
    requires Forward(sep) && Progress(p)
    ensures forall s: Scan<T> :: q(s).Success? <==> p(s).Success?
    ensures forall s: Scan<T> :: p(s).Success? ==>
      q(s) == PrefixedBy([p(s).value], Many(DiscardLeft(sep, p))(p(s).state))
  {
    Lift2((b: B, rest: seq<B>) => (Prepend(b, rest), None), p, Many(DiscardLeft(sep, p)))
  }

  /** SepBy(sep, p): SepBy1, or no values at all. It never fails. */
  function SepBy<T(!new), A, B>(sep: Parser<T, A>, p: Parser<T, B>): (q: Parser<T, seq<B>>)
    requires Forward(sep) && Progress(p)
    ensures forall s: Scan<T> :: q(s).Success?
    ensures forall s: Scan<T> :: p(s).Failure? ==> q(s) == Success([], Restore(p(s).state, s.pos))
    ensures forall s: Scan<T> :: p(s).Success? ==> q(s) == SepBy1(sep, p)(s)
  {
    Or(SepBy1(sep, p), Return([]))
  }

  /** SkipMany(p): Many(p), with the values dropped. */
  function SkipMany<T(!new), A>(p: Parser<T, A>): (q: Parser<T, ()>)
    requires Progress(p)
    ensures forall s: Scan<T> :: q(s) == Success((), Many(p)(s).state)
  {
    DiscardLeft(Many(p), Return(()))
  }

  /** SkipMany1(p): Many1(p), with the values dropped; fails exactly when p fails first. */
  function SkipMany1<T(!new), A>(p: Parser<T, A>): (q: Parser<T, ()>)
    requires Progress(p)
    ensures forall s: Scan<T> :: q(s).Success? <==> p(s).Success?
    ensures forall s: Scan<T> :: p(s).Success? ==> q(s) == Success((), Many(p)(p(s).state).state)
    ensures forall s: Scan<T> :: p(s).Failure? ==> q(s) == Failure(p(s).error, p(s).state)
  {
    DiscardLeft(Many1(p), Return(()))
  }

  /**
   * Fix(f) run at s: f's parser, in which the recursive parser is served
   * only at states strictly further on than s. A re-entry that has not
   * consumed anything is where the Go recursion never returns; the model
   * answers LeftRecursion there.
   */
  function FixRun<T(!new), A>(f: Parser<T, A> -> Parser<T, A>, s: Scan<T>): (r: Reply<Scan<T>, A>)
    ensures Extends(s, r.state)
    decreases Remaining(s), 1
  {
    f(Beyond(f, s))(s)
  }

  /** The recursive parser as FixRun(f, s) hands it to f. */
  function Beyond<T(!new), A>(f: Parser<T, A> -> Parser<T, A>, s: Scan<T>): (p: Parser<T, A>)
    decreases Remaining(s), 0
  {
    (s': Scan<T>) => if Remaining(s') < Remaining(s) then FixRun(f, s') else Failure(LeftRecursion, s')
  }

  function Fix<T(!new), A>(f: Parser<T, A> -> Parser<T, A>): (p: Parser<T, A>)
    ensures forall s: Scan<T> :: p(s) == FixRun(f, s)
  {
    (s: Scan<T>) => FixRun(f, s)
  }

  /** p and q answer alike at every state further on than s. */
  ghost predicate AgreeBeyond<T(!new), A>(p: Parser<T, A>, q: Parser<T, A>, s: Scan<T>)
  {
    forall s': Scan<T> :: Remaining(s') < Remaining(s) ==> p(s') == q(s')
  }

  /**
   * For an f that only calls its argument after consuming input (f(p) at
   * s depends on p only at states further on, as in a grammar whose
   * recursive references all sit behind a consumed token), Fix(f) is a
   * fixed point of f: running it is running f applied to it.
   */
  lemma FixUnfolds<T(!new), A>(f: Parser<T, A> -> Parser<T, A>, s: Scan<T>)
    requires forall p: Parser<T, A>, q: Parser<T, A>, s': Scan<T> :: AgreeBeyond(p, q, s') ==> f(p)(s') == f(q)(s')
    ensures Fix(f)(s) == f(Fix(f))(s)
  {
    assert AgreeBeyond(Beyond(f, s), Fix(f), s);
  }

  /**
   * The closure Fix returns, with its sync.Once: f is called the first
   * time the parser runs, and never again.
   */
  class FixCell<T(!new), A> {
    const f: Parser<T, A> -> Parser<T, A>
    var built: Option<Parser<T, A>>
    ghost var calls: nat

    ghost predicate Valid()
      reads this
    {
      (built.None? <==> calls == 0) &&
      (built.Some? ==> calls == 1 && built.value == f(Fix(f)))
    }

    constructor (f: Parser<T, A> -> Parser<T, A>)
      ensures Valid() && this.f == f && calls == 0
    {
      this.f := f;
      built := None;
      calls := 0;
    }

    method Run(s: Scan<T>) returns (r: Reply<Scan<T>, A>)
      requires Valid()
      modifies this
      ensures Valid() && calls == 1
      ensures r == f(Fix(f))(s)
    {
      if built.None? {
        built := Some(f(Fix(f)));
        calls := calls + 1;
      }
      r := built.value(s);
    }
  }

  /** Folding a list of (operator, operand) pairs onto acc, leftmost operator innermost. */
  function FoldLeft<A>(acc: A, xs: seq<Pair<(A, A) -> A, A>>): A
    decreases |xs|
  {
    if xs == [] then acc else FoldLeft(xs[0].left(acc, xs[0].right), xs[1..])
  }

  /** Folding a list of (operator, operand) pairs onto acc, rightmost operator innermost. */
  function FoldRight<A>(acc: A, xs: seq<Pair<(A, A) -> A, A>>): A
    decreases |xs|
  {
    if xs == [] then acc else xs[0].left(acc, FoldRight(xs[0].right, xs[1..]))
  }

  /** ChainL1's loop after the first operand: apply each (operator, operand) to the value so far. */
  function ChainL1From<T(!new), A>(p: Parser<T, A>, op: Parser<T, (A, A) -> A>, value: A, s: Scan<T>): (r: Reply<Scan<T>, A>)
    requires Forward(op) && Progress(p)
    ensures r.Success? && Extends(s, r.state)
    decreases Remaining(s)
  {
    match Both(op, p)(s)
    case Failure(_, s1) => Success(value, Restore(s1, s.pos))
    case Success(x, s1) => ChainL1From(p, op, x.left(value, x.right), s1)
  }

  /** ChainL1(p, op): operands separated by operators, combined left-associatively. */
  function ChainL1<T(!new), A>(p: Parser<T, A>, op: Parser<T, (A, A) -> A>): (q: Parser<T, A>)
    requires Forward(op) && Progress(p)
    ensures forall s: Scan<T> :: q(s).Success? <==> p(s).Success?
    ensures forall s: Scan<T> :: p(s).Failure? ==> q(s) == Failure(p(s).error, p(s).state)
  {
    (s: Scan<T>) =>
      match p(s)
      case Failure(err, s1) => Failure(err, s1)
      case Success(value, s1) => ChainL1From(p, op, value, s1)
  }

  /** ChainL1's loop, run on a scanner state. */
  method RunChainL1<T(!new), A>(p: Parser<T, A>, op: Parser<T, (A, A) -> A>, s: Scan<T>) returns (r: Reply<Scan<T>, A>)
    requires Forward(op) && Progress(p)
    ensures r == ChainL1(p, op)(s)
  {
    var next := Both(op, p);
    var first := p(s);
    if first.Failure? {
      return Failure(first.error, first.state);
    }
    var value := first.value;
    var cur := first.state;
    while true
      invariant ChainL1From(p, op, value, cur) == ChainL1(p, op)(s)
      decreases Remaining(cur)
    {
      var checkpoint := cur.pos;
      var x := next(cur);
      if x.Failure? {
        return Success(value, Restore(x.state, checkpoint));
      }
      value := x.value.left(value, x.value.right);
      cur := x.state;
    }
  }

  /**
   * ChainL1 is p followed by Many(Both(op, p)), the pairs folded from the
   * left: 1-2-3 reads as (1-2)-3.
   */
  lemma {:induction false} ChainL1IsFoldLeft<T(!new), A>(p: Parser<T, A>, op: Parser<T, (A, A) -> A>, value: A, s: Scan<T>)
    requires Forward(op) && Progress(p)
    ensures var m := Many(Both(op, p))(s);
      ChainL1From(p, op, value, s) == Success(FoldLeft(value, m.value), m.state)
    decreases Remaining(s)
  {
    var x := Both(op, p)(s);
    if x.Success? {
      ChainL1IsFoldLeft(p, op, x.value.left(value, x.value.right), x.state);
      var rest := ManyFrom(Both(op, p), x.state).value;
      assert ([x.value] + rest)[1..] == rest;
    }
  }

  /** Go's chain(acc) in ChainR1, at state s: one more operator and operand, or acc alone. */
  function ChainFrom<T(!new), A>(p: Parser<T, A>, op: Parser<T, (A, A) -> A>, acc: A, s: Scan<T>): (r: Reply<Scan<T>, A>)
    requires Forward(op) && Progress(p)
    ensures r.Success? && Extends(s, r.state)
    decreases Remaining(s)
  {
    match op(s)
    case Failure(_, s1) => Success(acc, Restore(s1, s.pos))
    case Success(f, s1) =>
      match p(s1)
      case Failure(_, s2) => Success(acc, Restore(s2, s.pos))
      case Success(b, s2) =>
        var rest := ChainFrom(p, op, b, s2);
        Success(f(acc, rest.value), rest.state)
  }

  function Chain<T(!new), A>(p: Parser<T, A>, op: Parser<T, (A, A) -> A>, acc: A): (q: Parser<T, A>)
    requires Forward(op) && Progress(p)
    ensures forall s: Scan<T> :: q(s).Success?
  {
    (s: Scan<T>) => ChainFrom(p, op, acc, s)
  }

  /** Chain is the parser Go's chain function builds: Or(Lift2(apply, op, Bind(p, chain)), Return(acc)). */
  lemma ChainIsGoChain<T(!new), A>(p: Parser<T, A>, op: Parser<T, (A, A) -> A>, acc: A, s: Scan<T>)
    requires Forward(op) && Progress(p)
    ensures Chain(p, op, acc)(s) ==
      Or(Lift2((f: (A, A) -> A, x: A) => (f(acc, x), None), op, Bind(p, (b: A) => Chain(p, op, b))), Return(acc))(s)
  {
  }

  /** ChainR1(p, op): operands separated by operators, combined right-associatively. */
  function ChainR1<T(!new), A>(p: Parser<T, A>, op: Parser<T, (A, A) -> A>): (q: Parser<T, A>)
    requires Forward(op) && Progress(p)
    ensures forall s: Scan<T> :: q(s).Success? <==> p(s).Success?
    ensures forall s: Scan<T> :: p(s).Failure? ==> q(s) == Failure(p(s).error, p(s).state)
  {
    Bind(p, (b: A) => Chain(p, op, b))
  }

  /**
   * ChainR1 is p followed by Many(Both(op, p)), the pairs folded from the
   * right: 1-2-3 reads as 1-(2-3).
   */
  lemma {:induction false} ChainIsFoldRight<T(!new), A>(p: Parser<T, A>, op: Parser<T, (A, A) -> A>, acc: A, s: Scan<T>)
    requires Forward(op) && Progress(p)
    ensures var m := Many(Both(op, p))(s);
      ChainFrom(p, op, acc, s) == Success(FoldRight(acc, m.value), m.state)
    decreases Remaining(s)
  {
    var x := Both(op, p)(s);
    if x.Success? {
      ChainIsFoldRight(p, op, x.value.right, x.state);
      var rest := ManyFrom(Both(op, p), x.state).value;
      assert ([x.value] + rest)[1..] == rest;
    }
  }

  /** With one associative operator throughout, folding from the left and from the right agree. */
  lemma {:induction false} FoldsAgreeWhenAssociative<A>(f: (A, A) -> A, acc: A, xs: seq<Pair<(A, A) -> A, A>>)
    requires forall i :: 0 <= i < |xs| ==> xs[i].left == f
    requires forall a, b, c :: f(f(a, b), c) == f(a, f(b, c))
    ensures FoldLeft(acc, xs) == FoldRight(acc, xs)
    decreases |xs|
  {
    if xs != [] {
      FoldLeftShift(f, acc, xs[0].right, xs[1..]);
      FoldsAgreeWhenAssociative(f, xs[0].right, xs[1..]);
    }
  }

  lemma {:induction false} FoldLeftShift<A>(f: (A, A) -> A, a: A, b: A, xs: seq<Pair<(A, A) -> A, A>>)
    requires forall i :: 0 <= i < |xs| ==> xs[i].left == f
    requires forall a, b, c :: f(f(a, b), c) == f(a, f(b, c))
    ensures FoldLeft(f(a, b), xs) == f(a, FoldLeft(b, xs))
    decreases |xs|
  {
    if xs != [] {
      FoldLeftShift(f, a, f(b, xs[0].right), xs[1..]);
    }
  }
}
