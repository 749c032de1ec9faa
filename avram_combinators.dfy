/**
 * Repetition, sequencing and recursion combinators of the root engine
 * (combinators.go). Each Go loop is modelled twice: a recursive function
 * that states what the loop computes, and a method with the loop itself,
 * proved to compute it.
 */
module AvramCombinators {
  import opened Errors
  import opened Replies
  import opened AvramScanner
  import opened AvramParser
  import opened AvramAlternatives
  import opened AvramLift
  import opened AvramPair
  import opened AvramLazy

  /** The reply r with prefix put in front of its value when it succeeded. */
  function PrefixedBy<S, A>(prefix: seq<A>, r: Reply<S, seq<A>>): Reply<S, seq<A>>
  {
    if r.Success? then Success(prefix + r.value, r.state) else r
  }

  lemma PrefixedByNothing<S, A>(r: Reply<S, seq<A>>)
    ensures PrefixedBy([], r) == r
  {
    if r.Success? {
      assert [] + r.value == r.value;
    }
  }

  lemma PrefixedByTwice<S, A>(a: seq<A>, b: seq<A>, r: Reply<S, seq<A>>)
    ensures PrefixedBy(a, PrefixedBy(b, r)) == PrefixedBy(a + b, r)
  {
    if r.Success? {
      assert a + (b + r.value) == (a + b) + r.value;
    }
  }

  /**
   * Option(fallback, p): p's value, or fallback when p fails. It never
   * fails, and it does not rewind what a failing p consumed.
   */
  function Option<A>(fallback: A, p: Parser<A>): (q: Parser<A>)
    ensures forall s: Scan :: q(s).Success? && q(s).state == p(s).state
    ensures forall s: Scan :: q(s).value == if p(s).Success? then p(s).value else fallback
  {
    (s: Scan) =>
      match p(s)
      case Failure(_, s1) => Success(fallback, s1)
      case Success(val, s1) => Success(val, s1)
  }

  /** Option(x, p) and Or(p, Return(x)) give the same value; only Or rewinds a failed p. */
  lemma OptionAgainstOr<A>(fallback: A, p: Parser<A>, s: Scan)
    ensures Option(fallback, p)(s).value == Or(p, Return(fallback))(s).value
    ensures p(s).Success? ==> Option(fallback, p)(s) == Or(p, Return(fallback))(s)
    ensures p(s).Failure? ==> Or(p, Return(fallback))(s).state == Restore(Option(fallback, p)(s).state, s.pos)
  {
  }

  /** Both(p, q): p then q, with both values as a pair. */
  function Both<A, B>(p: Parser<A>, q: Parser<B>): (r: Parser<Pair<A, B>>)
    ensures forall s: Scan :: r(s).Success? <==> p(s).Success? && q(p(s).state).Success?
    ensures forall s: Scan :: r(s).Success? ==> r(s) == Success(Pair(p(s).value, q(p(s).state).value), q(p(s).state).state)
    ensures forall s: Scan :: p(s).Failure? ==> r(s) == Failure(p(s).error, p(s).state)
    ensures forall s: Scan :: p(s).Success? && q(p(s).state).Failure? ==> r(s) == Failure(q(p(s).state).error, q(p(s).state).state)
    ensures Forward(p) && Progress(q) ==> Progress(r)
  {
    Lift2(Error2((a: A, b: B) => MakePair(a, b)), p, q)
  }

  /** List's loop from ps[0] on: every parser in turn, stopping at the first failure. */
  function ListFrom<A>(ps: seq<Parser<A>>, s: Scan): (r: Reply<Scan, seq<A>>)
    ensures r.state.input == s.input
    ensures r.Success? ==> |r.value| == |ps|
    decreases |ps|
  {
    if ps == [] then Success([], s)
    else
      match ps[0](s)
      case Failure(err, s1) => Failure(err, s1)
      case Success(val, s1) => PrefixedBy([val], ListFrom(ps[1..], s1))
  }

  /** List(ps): each parser of ps in sequence, with their values in order, or the first failure. */
  function List<A>(ps: seq<Parser<A>>): (q: Parser<seq<A>>)
    ensures forall s: Scan :: q(s).Success? ==> |q(s).value| == |ps|
    ensures forall s: Scan :: ps == [] ==> q(s) == Success([], s)
  {
    (s: Scan) => ListFrom(ps, s)
  }

  /** A list of parsers is its first parser, then the list of the rest, the values joined by prepend. */
  lemma ListCons<A>(p: Parser<A>, ps: seq<Parser<A>>, s: Scan)
    ensures List([p] + ps)(s) == Lift2(Error2((a: A, rest: seq<A>) => Prepend(a, rest)), p, List(ps))(s)
  {
    assert ([p] + ps)[1..] == ps;
  }

  /** List's for loop, run on a scanner state. */
  method RunList<A>(ps: seq<Parser<A>>, s: Scan) returns (r: Reply<Scan, seq<A>>)
    ensures r == List(ps)(s)
  {
    var out: seq<A> := [];
    var cur := s;
    PrefixedByNothing(ListFrom(ps, s));
    for i := 0 to |ps|
      invariant ListFrom(ps, s) == PrefixedBy(out, ListFrom(ps[i..], cur))
    {
      assert ps[i..][1..] == ps[i + 1..];
      var res := ps[i](cur);
      if res.Failure? {
        return Failure(res.error, res.state);
      }
      PrefixedByTwice(out, [res.value], ListFrom(ps[i + 1..], res.state));
      out := out + [res.value];
      cur := res.state;
    }
    assert out + [] == out;
    return Success(out, cur);
  }

  /** Count's loop with n runs of p left. */
  function CountFrom<A>(n: nat, p: Parser<A>, s: Scan): (r: Reply<Scan, seq<A>>)
    ensures r.state.input == s.input
    ensures r.Success? ==> |r.value| == n
    ensures Forward(p) ==> r.state.pos >= s.pos
    decreases n
  {
    if n == 0 then Success([], s)
    else
      match p(s)
      case Failure(err, s1) => Failure(err, s1)
      case Success(val, s1) => PrefixedBy([val], CountFrom(n - 1, p, s1))
  }

  /** Count(n, p): p exactly n times (not at all when n is not positive), with the values in order. */
  function Count<A>(n: int, p: Parser<A>): (q: Parser<seq<A>>)
    ensures forall s: Scan :: q(s).Success? ==> |q(s).value| == if n < 0 then 0 else n
    ensures forall s: Scan :: n <= 0 ==> q(s) == Success([], s)
    ensures Forward(p) ==> Forward(q)
  {
    (s: Scan) => CountFrom(if n < 0 then 0 else n, p, s)
  }

  /** n copies of p. */
  function Copies<A>(n: nat, p: Parser<A>): (ps: seq<Parser<A>>)
    ensures |ps| == n && forall i :: 0 <= i < n ==> ps[i] == p
  {
    if n == 0 then [] else [p] + Copies(n - 1, p)
  }

  /** Count(n, p) is List of n copies of p. */
  lemma {:induction false} CountIsList<A>(n: nat, p: Parser<A>, s: Scan)
    ensures Count(n, p)(s) == List(Copies(n, p))(s)
    decreases n
  {
    if n > 0 {
      var r := p(s);
      assert Copies(n, p)[1..] == Copies(n - 1, p);
      if r.Success? {
        CountIsList(n - 1, p, r.state);
      }
    }
  }

  /** Count's for loop, run on a scanner state. */
  method RunCount<A>(n: int, p: Parser<A>, s: Scan) returns (r: Reply<Scan, seq<A>>)
    ensures r == Count(n, p)(s)
  {
    ghost var total: nat := if n < 0 then 0 else n;
    var out: seq<A> := [];
    var cur := s;
    var i := 0;
    PrefixedByNothing(CountFrom(total, p, s));
    while i < n
      invariant 0 <= i <= total
      invariant CountFrom(total, p, s) == PrefixedBy(out, CountFrom(total - i, p, cur))
    {
      var res := p(cur);
      if res.Failure? {
        return Failure(res.error, res.state);
      }
      PrefixedByTwice(out, [res.value], CountFrom(total - i - 1, p, res.state));
      out := out + [res.value];
      cur := res.state;
      i := i + 1;
    }
    assert out + [] == out;
    return Success(out, cur);
  }

  /** Many's loop from s: Try(p) until it fails, which leaves the position where that attempt started. */
  function ManyFrom<A>(p: Parser<A>, s: Scan): (r: Reply<Scan, seq<A>>)
    requires Progress(p)
    ensures r.Success? && r.state.input == s.input && r.state.pos >= s.pos
    ensures |r.value| <= r.state.pos - s.pos
    decreases Ahead(s)
  {
    match Try(p)(s)
    case Failure(_, s1) => Success([], s1)
    case Success(val, s1) => PrefixedBy([val], ManyFrom(p, s1))
  }

  /**
   * Many(p): p as many times as it succeeds, with the values in order. It
   * never fails, and each value stands for at least one consumed byte. A
   * p that can succeed without consuming makes the Go loop run forever,
   * hence the requirement.
   */
  function Many<A>(p: Parser<A>): (q: Parser<seq<A>>)
    requires Progress(p)
    ensures forall s: Scan :: q(s).Success? && q(s).state.pos >= s.pos
    ensures forall s: Scan :: |q(s).value| <= q(s).state.pos - s.pos
    ensures Forward(q)
  {
    (s: Scan) => ManyFrom(p, s)
  }

  /** Many's loop, run on a scanner state. */
  method RunMany<A>(p: Parser<A>, s: Scan) returns (r: Reply<Scan, seq<A>>)
    requires Progress(p)
    ensures r == Many(p)(s)
  {
    var tp := Try(p);
    var out: seq<A> := [];
    var cur := s;
    PrefixedByNothing(ManyFrom(p, s));
    while true
      invariant ManyFrom(p, s) == PrefixedBy(out, ManyFrom(p, cur))
      decreases Ahead(cur)
    {
      var res := tp(cur);
      if res.Failure? {
        assert out + [] == out;
        return Success(out, res.state);
      }
      PrefixedByTwice(out, [res.value], ManyFrom(p, res.state));
      out := out + [res.value];
      cur := res.state;
    }
  }

  /** One turn of Many's loop: stop in place when p fails, otherwise go on from where p stopped. */
  lemma ManyStep<A>(p: Parser<A>, s: Scan)
    requires Progress(p)
    ensures p(s).Failure? ==> Many(p)(s) == Success([], Restore(p(s).state, s.pos))
    ensures p(s).Success? ==> Many(p)(s) == PrefixedBy([p(s).value], Many(p)(p(s).state))
    ensures p(s).Success? ==> Many(p)(s).state == Many(p)(p(s).state).state
  {
  }

  /** Many1(p): p at least once, then as many times as it succeeds. */
  function Many1<A>(p: Parser<A>): (q: Parser<seq<A>>)
    requires Progress(p)
    ensures forall s: Scan :: q(s).Success? <==> p(s).Success?
    ensures forall s: Scan :: p(s).Failure? ==> q(s) == Failure(p(s).error, p(s).state)
    ensures forall s: Scan :: p(s).Success? ==>
      q(s) == Success([p(s).value] + Many(p)(p(s).state).value, Many(p)(p(s).state).state)
    ensures Progress(q)
    ensures Forward(p) ==> Forward(q)
  {
    Lift2(Error2((a: A, rest: seq<A>) => Prepend(a, rest)), p, Many(p))
  }

  /** Many(p) is "Many1(p), or else nothing": the usual definition of repetition, here exactly. */
  lemma ManyIsMany1OrEmpty<A>(p: Parser<A>, s: Scan)
    requires Progress(p)
    ensures Many(p)(s) == Or(Many1(p), Return([]))(s)
  {
  }

  /**
   * ManyTill's loop from s: try e; when it succeeds stop, otherwise run p
   * from where e's failed attempt left the scanner.
   */
  function ManyTillFrom<A, B>(p: Parser<A>, e: Parser<B>, s: Scan): (r: Reply<Scan, seq<A>>)
    requires Progress(p) && Forward(e)
    ensures r.state.input == s.input
    decreases Ahead(s)
  {
    match e(s)
    case Success(_, s1) => Success([], s1)
    case Failure(_, s1) =>
      match p(s1)
      case Failure(err, s2) => Failure(err, s2)
      case Success(el, s2) => PrefixedBy([el], ManyTillFrom(p, e, s2))
  }

  /**
   * ManyTill(p, e): the values of p up to the first success of e, which
   * is tried before each p. A failing p fails the whole parser.
   */
  function ManyTill<A, B>(p: Parser<A>, e: Parser<B>): (q: Parser<seq<A>>)
    requires Progress(p) && Forward(e)
    ensures forall s: Scan :: e(s).Success? ==> q(s) == Success([], e(s).state)
    ensures forall s: Scan :: e(s).Failure? ==>
      q(s) == Lift2(Error2((a: A, rest: seq<A>) => Prepend(a, rest)), p, ManyTill(p, e))(e(s).state)
  {
    (s: Scan) => ManyTillFrom(p, e, s)
  }

  /** ManyTill's loop, run on a scanner state. */
  method RunManyTill<A, B>(p: Parser<A>, e: Parser<B>, s: Scan) returns (r: Reply<Scan, seq<A>>)
    requires Progress(p) && Forward(e)
    ensures r == ManyTill(p, e)(s)
  {
    var acc: seq<A> := [];
    var cur := s;
    PrefixedByNothing(ManyTillFrom(p, e, s));
    while true
      invariant ManyTillFrom(p, e, s) == PrefixedBy(acc, ManyTillFrom(p, e, cur))
      decreases Ahead(cur)
    {
      var end := e(cur);
      if end.Success? {
        assert acc + [] == acc;
        return Success(acc, end.state);
      }
      var el := p(end.state);
      if el.Failure? {
        return Failure(el.error, el.state);
      }
      PrefixedByTwice(acc, [el.value], ManyTillFrom(p, e, el.state));
      acc := acc + [el.value];
      cur := el.state;
    }
  }

  /** SepBy1(sep, p): one p, then as many "sep then p" as succeed, with the values of the p's in order. */
  function SepBy1<A, B>(sep: Parser<A>, p: Parser<B>): (q: Parser<seq<B>>)
    requires Forward(sep) && Progress(p)
    ensures forall s: Scan :: q(s).Success? <==> p(s).Success?
    ensures forall s: Scan :: p(s).Failure? ==> q(s) == Failure(p(s).error, p(s).state)
    ensures forall s: Scan :: p(s).Success? ==>
      q(s) == PrefixedBy([p(s).value], Many(DiscardLeft(sep, p))(p(s).state))
  {
    Lift2(Error2((b: B, rest: seq<B>) => Prepend(b, rest)), p, Many(DiscardLeft(sep, p)))
  }

  /** SepBy(sep, p): SepBy1, or no values at all, with the position back where it was. It never fails. */
  function SepBy<A, B>(sep: Parser<A>, p: Parser<B>): (q: Parser<seq<B>>)
    requires Forward(sep) && Progress(p)
    ensures forall s: Scan :: q(s).Success?
    ensures forall s: Scan :: p(s).Failure? ==> q(s) == Success([], Restore(p(s).state, s.pos))
    ensures forall s: Scan :: p(s).Success? ==> q(s) == SepBy1(sep, p)(s)
  {
    Or(SepBy1(sep, p), Return([]))
  }

  /** SkipMany(p): Many(p), with the values dropped. */
  function SkipMany<A>(p: Parser<A>): (q: Parser<()>)
    requires Progress(p)
    ensures forall s: Scan :: q(s) == Success((), Many(p)(s).state)
    ensures Forward(q)
  {
    DiscardLeft(Many(p), Return(()))
  }

  /** SkipMany1(p): Many1(p), with the values dropped; fails exactly when p fails first. */
  function SkipMany1<A>(p: Parser<A>): (q: Parser<()>)
    requires Progress(p)
    ensures forall s: Scan :: q(s).Success? <==> p(s).Success?
    ensures forall s: Scan :: p(s).Success? ==> q(s) == Success((), Many(p)(p(s).state).state)
    ensures forall s: Scan :: p(s).Failure? ==> q(s) == Failure(p(s).error, p(s).state)
  {
    DiscardLeft(Many1(p), Return(()))
  }

  /**
   * Fix(f) run at s: f's parser, in which the recursive parser is served
   * only at states strictly further on than s. A re-entry that has not
   * consumed anything is where the Go recursion never returns; the model
   * answers LeftRecursion there.
   */
  function FixRun<A>(f: Parser<A> -> Parser<A>, s: Scan): (r: Reply<Scan, A>)
    ensures r.state.input == s.input
    decreases Ahead(s), 1
  {
    f(Beyond(f, s))(s)
  }

  /** The recursive parser as FixRun(f, s) hands it to f. */
  function Beyond<A>(f: Parser<A> -> Parser<A>, s: Scan): (p: Parser<A>)
    decreases Ahead(s), 0
  {
    (s': Scan) => if Ahead(s') < Ahead(s) then FixRun(f, s') else Failure(LeftRecursion, s')
  }

  function Fix<A>(f: Parser<A> -> Parser<A>): (p: Parser<A>)
    ensures forall s: Scan :: p(s) == FixRun(f, s)
  {
    (s: Scan) => FixRun(f, s)
  }

  /** p and q answer alike at every state further on than s. */
  ghost predicate AgreeBeyond<A>(p: Parser<A>, q: Parser<A>, s: Scan)
  {
    forall s': Scan :: Ahead(s') < Ahead(s) ==> p(s') == q(s')
  }

  /**
   * For an f that only calls its argument after consuming input, Fix(f)
   * is a fixed point of f: running it is running f applied to it.
   */
  lemma FixUnfolds<A>(f: Parser<A> -> Parser<A>, s: Scan)
    requires forall p: Parser<A>, q: Parser<A>, s': Scan :: AgreeBeyond(p, q, s') ==> f(p)(s') == f(q)(s')
    ensures Fix(f)(s) == f(Fix(f))(s)
  {
    assert AgreeBeyond(Beyond(f, s), Fix(f), s);
  }

  /**
   * The closure Fix returns, with its sync.Once: f is called the first
   * time the parser runs, and never again.
   */
  class FixCell<A> {
    const f: Parser<A> -> Parser<A>
    var built: Errors.Option<Parser<A>>
    ghost var calls: nat

    ghost predicate Valid()
      reads this
    {
      (built.None? <==> calls == 0) &&
      (built.Some? ==> calls == 1 && built.value == f(Fix(f)))
    }

    constructor (f: Parser<A> -> Parser<A>)
      ensures Valid() && this.f == f && calls == 0
    {
      this.f := f;
      built := None;
      calls := 0;
    }

    method Run(s: Scan) returns (r: Reply<Scan, A>)
      requires Valid()
      modifies this
      ensures Valid() && calls == 1
      ensures r == f(Fix(f))(s)
    {
      if built.None? {
        built := Some(f(Fix(f)));
        calls := calls + 1;
      }
      r := built.value(s);
    }
  }

  /** Folding (operator, operand) pairs onto acc, leftmost operator innermost: ((acc op1 x1) op2 x2) ... */
  function FoldLeft<A>(acc: A, xs: seq<Pair<(A, A) -> A, A>>): A
    decreases |xs|
  {
    if xs == [] then acc else FoldLeft(xs[0].left(acc, xs[0].right), xs[1..])
  }

  /** Folding (operator, operand) pairs onto acc, rightmost operator innermost: acc op1 (x1 op2 (x2 ...)). */
  function FoldRight<A>(acc: A, xs: seq<Pair<(A, A) -> A, A>>): A
    decreases |xs|
  {
    if xs == [] then acc else xs[0].left(acc, FoldRight(xs[0].right, xs[1..]))
  }

  /**
   * Go's chain(acc) in ChainL1 as written, at state s: one more operator
   * and operand, whose value is the rest of the chain, applied to acc; or
   * acc alone, with the position back where it was.
   */
  function ChainFrom<A>(p: Parser<A>, op: Parser<(A, A) -> A>, acc: A, s: Scan): (r: Reply<Scan, A>)
    requires Forward(op) && Progress(p)
    ensures r.Success? && r.state.input == s.input && r.state.pos >= s.pos
    decreases Ahead(s)
  {
    match op(s)
    case Failure(_, s1) => Success(acc, Restore(s1, s.pos))
    case Success(f, s1) =>
      match p(s1)
      case Failure(_, s2) => Success(acc, Restore(s2, s.pos))
      case Success(b, s2) =>
        var rest := ChainFrom(p, op, b, s2);
        Success(f(acc, rest.value), rest.state)
  }

  function Chain<A>(p: Parser<A>, op: Parser<(A, A) -> A>, acc: A): (q: Parser<A>)
    requires Forward(op) && Progress(p)
    ensures forall s: Scan :: q(s) == ChainFrom(p, op, acc, s)
  {
    (s: Scan) => ChainFrom(p, op, acc, s)
  }

  /** Chain is the parser Go's chain function builds: Or(Try(Lift2(apply to acc, op, Bind(p, chain))), Return(acc)). */
  lemma ChainIsGoChain<A>(p: Parser<A>, op: Parser<(A, A) -> A>, acc: A, s: Scan)
    requires Forward(op) && Progress(p)
    ensures Chain(p, op, acc)(s) ==
      Or(Try(Lift2(Error2((f: (A, A) -> A, x: A) => f(acc, x)), op, Bind(p, (b: A) => Chain(p, op, b)))), Return(acc))(s)
  {
    var g := Lift2(Error2((f: (A, A) -> A, x: A) => f(acc, x)), op, Bind(p, (b: A) => Chain(p, op, b)));
    var o := op(s);
    if o.Failure? {
      assert g(s) == Failure(o.error, o.state);
      assert Try(g)(s) == Failure(o.error, Restore(o.state, s.pos));
    } else {
      var x := p(o.state);
      if x.Failure? {
        assert g(s) == Failure(x.error, x.state);
        assert Try(g)(s) == Failure(x.error, Restore(x.state, s.pos));
      } else {
        var rest := ChainFrom(p, op, x.value, x.state);
        assert Bind(p, (b: A) => Chain(p, op, b))(o.state) == rest;
        assert g(s) == Success(o.value(acc, rest.value), rest.state);
      }
    }
  }

  /** ChainL1(p, op) as written: operands separated by operators, the first failure of p failing it. */
  function ChainL1<A>(p: Parser<A>, op: Parser<(A, A) -> A>): (q: Parser<A>)
    requires Forward(op) && Progress(p)
    ensures forall s: Scan :: q(s).Success? <==> p(s).Success?
    ensures forall s: Scan :: p(s).Failure? ==> q(s) == Failure(p(s).error, p(s).state)
    ensures forall s: Scan :: p(s).Success? ==> q(s) == ChainFrom(p, op, p(s).value, p(s).state)
  {
    Bind(p, (b: A) => Chain(p, op, b))
  }

  /**
   * ChainL1 as written reads p followed by Many(Both(op, p)) and folds
   * the pairs from the RIGHT: the rest of the chain is the right operand
   * of each operator, so 1+2*3+4 reads as 1+(2*(3+4)).
   */
  lemma {:induction false} ChainIsFoldRight<A>(p: Parser<A>, op: Parser<(A, A) -> A>, acc: A, s: Scan)
    requires Forward(op) && Progress(p)
    ensures var m := Many(Both(op, p))(s);
      ChainFrom(p, op, acc, s) == Success(FoldRight(acc, m.value), m.state)
    decreases Ahead(s)
  {
    var x := Both(op, p)(s);
    if x.Success? {
      ChainIsFoldRight(p, op, x.value.right, x.state);
      var rest := ManyFrom(Both(op, p), x.state).value;
      assert ([x.value] + rest)[1..] == rest;
    }
  }

  /** ChainL1's loop as its documentation describes it: apply each (operator, operand) to the value so far. */
  function ChainLeftFrom<A>(p: Parser<A>, op: Parser<(A, A) -> A>, value: A, s: Scan): (r: Reply<Scan, A>)
    requires Forward(op) && Progress(p)
    ensures r.Success? && r.state.input == s.input
    decreases Ahead(s)
  {
    match Try(Both(op, p))(s)
    case Failure(_, s1) => Success(value, s1)
    case Success(x, s1) => ChainLeftFrom(p, op, x.left(value, x.right), s1)
  }

  /** ChainL1 corrected: operands separated by operators, combined left-associatively. */
  function ChainL1Left<A>(p: Parser<A>, op: Parser<(A, A) -> A>): (q: Parser<A>)
    requires Forward(op) && Progress(p)
    ensures forall s: Scan :: q(s).Success? <==> p(s).Success?
    ensures forall s: Scan :: p(s).Failure? ==> q(s) == Failure(p(s).error, p(s).state)
  {
    (s: Scan) =>
      match p(s)
      case Failure(err, s1) => Failure(err, s1)
      case Success(value, s1) => ChainLeftFrom(p, op, value, s1)
  }

  /** The corrected ChainL1 folds the same pairs from the LEFT: 1+2*3+4 reads as ((1+2)*3)+4. */
  lemma {:induction false} ChainLeftIsFoldLeft<A>(p: Parser<A>, op: Parser<(A, A) -> A>, value: A, s: Scan)
    requires Forward(op) && Progress(p)
    ensures var m := Many(Both(op, p))(s);
      ChainLeftFrom(p, op, value, s) == Success(FoldLeft(value, m.value), m.state)
    decreases Ahead(s)
  {
    var x := Both(op, p)(s);
    if x.Success? {
      ChainLeftIsFoldLeft(p, op, x.value.left(value, x.value.right), x.state);
      var rest := ManyFrom(Both(op, p), x.state).value;
      assert ([x.value] + rest)[1..] == rest;
    }
  }

  /** The corrected ChainL1's loop, run on a scanner state. */
  method RunChainL1Left<A>(p: Parser<A>, op: Parser<(A, A) -> A>, s: Scan) returns (r: Reply<Scan, A>)
    requires Forward(op) && Progress(p)
    ensures r == ChainL1Left(p, op)(s)
  {
    var next := Try(Both(op, p));
    var first := p(s);
    if first.Failure? {
      return Failure(first.error, first.state);
    }
    var value := first.value;
    var cur := first.state;
    while true
      invariant ChainLeftFrom(p, op, value, cur) == ChainL1Left(p, op)(s)
      decreases Ahead(cur)
    {
      var x := next(cur);
      if x.Failure? {
        return Success(value, x.state);
      }
      value := x.value.left(value, x.value.right);
      cur := x.state;
    }
  }

  function Add(a: int, b: int): int { a + b }
  function Mul(a: int, b: int): int { a * b }

  /** The operators and operands after the leading 1 of "1+2*3+4". */
  function OnePlusTwoTimesThreePlusFour(): seq<Pair<(int, int) -> int, int>>
  {
    [Pair(Add, 2), Pair(Mul, 3), Pair(Add, 4)]
  }

  /**
   * On "1+2*3+4" ChainL1 as written computes 1+(2*(3+4)) = 15, where its
   * documentation and its test expect ((1+2)*3)+4 = 13, which the
   * corrected ChainL1 computes.
   */
  lemma ChainL1Disagrees()
    ensures FoldRight(1, OnePlusTwoTimesThreePlusFour()) == 15
    ensures FoldLeft(1, OnePlusTwoTimesThreePlusFour()) == 13
  {
    var xs := OnePlusTwoTimesThreePlusFour();
    assert xs[1..][1..][1..] == [];
    assert FoldRight(4, xs[1..][1..][1..]) == 4;
    assert FoldLeft(13, xs[1..][1..][1..]) == 13;
  }

  /** With one associative operator throughout, the two folds agree: there the two ChainL1s cannot be told apart. */
  lemma {:induction false} FoldsAgreeWhenAssociative<A>(f: (A, A) -> A, acc: A, xs: seq<Pair<(A, A) -> A, A>>)
    requires forall i :: 0 <= i < |xs| ==> xs[i].left == f
    requires forall a, b, c :: f(f(a, b), c) == f(a, f(b, c))
    ensures FoldLeft(acc, xs) == FoldRight(acc, xs)
    decreases |xs|
  {
    if xs != [] {
      FoldLeftShift(f, acc, xs[0].right, xs[1..]);
      FoldsAgreeWhenAssociative(f, xs[0].right, xs[1..]);
    }
  }

  lemma {:induction false} FoldLeftShift<A>(f: (A, A) -> A, a: A, b: A, xs: seq<Pair<(A, A) -> A, A>>)
    requires forall i :: 0 <= i < |xs| ==> xs[i].left == f
    requires forall a, b, c :: f(f(a, b), c) == f(a, f(b, c))
    ensures FoldLeft(f(a, b), xs) == f(a, FoldLeft(b, xs))
    decreases |xs|
  {
    if xs != [] {
      FoldLeftShift(f, a, f(b, xs[0].right), xs[1..]);
    }
  }
}
