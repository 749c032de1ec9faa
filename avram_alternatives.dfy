/** Alternation in the root engine (alternatives.go): every alternative runs under Try. */
module AvramAlternatives {
  import opened Errors
  import opened Replies
  import opened AvramScanner
  import opened AvramParser
  import opened Utf8

  /**
   * Or(p, q): p's outcome if it succeeds; otherwise q's, run from where p
   * started, since p runs under Try. When both fail, the error lists p's
   * errors and then q's, and the outer Try leaves the position where Or
   * started.
   */
  function Or<A>(p: Parser<A>, q: Parser<A>): (r: Parser<A>)
    ensures forall s: Scan :: p(s).Success? ==> r(s) == p(s)
    ensures forall s: Scan :: p(s).Failure? ==>
      var s1 := Restore(p(s).state, s.pos);
      (q(s1).Success? ==> r(s) == q(s1)) &&
      (q(s1).Failure? ==> r(s) == Failure(Combine(p(s).error, q(s1).error), Restore(q(s1).state, s.pos)))
  {
    Try((s: Scan) => OrStep(p, q, s))
  }

  /** The function Or hands to Try: Try(p), then q from where that left the scanner. */
  function OrStep<A>(p: Parser<A>, q: Parser<A>, s: Scan): (r: Reply<Scan, A>)
    ensures r.state.input == s.input
  {
    match Try(p)(s)
    case Success(res, s1) => Success(res, s1)
    case Failure(err1, s1) =>
      match q(s1)
      case Failure(err2, s2) => Failure(Combine(err1, err2), s2)
      case Success(res, s2) => Success(res, s2)
  }

  /** Or fails exactly when both alternatives fail, and then consumes nothing. */
  lemma OrFailsInPlace<A>(p: Parser<A>, q: Parser<A>, s: Scan)
    ensures Or(p, q)(s).Failure? <==> p(s).Failure? && q(Restore(p(s).state, s.pos)).Failure?
    ensures Or(p, q)(s).Failure? ==>
      (Or(p, q)(s).state.pos == s.pos &&
       Flatten(Or(p, q)(s).error) == Flatten(p(s).error) + Flatten(q(Restore(p(s).state, s.pos)).error))
  {
  }

  /** Choice's loop from ps[0] on, each alternative under Try, all starting at s's position. */
  function ChoiceFrom<A>(msg: string, ps: seq<Parser<A>>, s: Scan): (r: Reply<Scan, A>)
    ensures r.state.input == s.input
    ensures r.Failure? ==> r == Failure(Message(msg), r.state) && r.state.pos == s.pos
    decreases |ps|
  {
    if ps == [] then Failure(Message(msg), s)
    else
      match Try(ps[0])(s)
      case Success(val, s1) => Success(val, s1)
      case Failure(_, s1) => ChoiceFrom(msg, ps[1..], s1)
  }

  /**
   * Choice(msg, ps): the first alternative that succeeds, each tried from
   * the starting position. When none does it fails with exactly msg, the
   * alternatives' errors dropped, at the starting position.
   */
  function Choice<A>(msg: string, ps: seq<Parser<A>>): (r: Parser<A>)
    ensures forall s: Scan :: r(s).Failure? ==> r(s).error == Message(msg) && r(s).state.pos == s.pos
    ensures forall s: Scan :: r(s) == ChoiceFrom(msg, ps, s)
  {
    Try((s: Scan) => ChoiceFrom(msg, ps, s))
  }

  /**
   * The state the i-th alternative of Choice starts from: the starting
   * position, with the width history and line count the earlier
   * alternatives left.
   */
  function ChoiceAt<A>(ps: seq<Parser<A>>, i: nat, s: Scan): (s': Scan)
    requires i <= |ps|
    ensures s'.input == s.input && s'.pos == s.pos
    decreases i
  {
    if i == 0 then s else ChoiceAt(ps[1..], i - 1, Restore(ps[0](s).state, s.pos))
  }

  /** When Choice succeeds, its reply is that of some alternative, tried from the start after all earlier ones failed. */
  lemma {:induction false} ChoiceWinner<A>(msg: string, ps: seq<Parser<A>>, s: Scan)
    requires ChoiceFrom(msg, ps, s).Success?
    ensures exists i :: 0 <= i < |ps| && ChoiceFrom(msg, ps, s) == ps[i](ChoiceAt(ps, i, s)) &&
                        forall j :: 0 <= j < i ==> ps[j](ChoiceAt(ps, j, s)).Failure?
    decreases |ps|
  {
    if ps[0](s).Success? {
      assert ChoiceAt(ps, 0, s) == s;
    } else {
      var s' := Restore(ps[0](s).state, s.pos);
      ChoiceWinner(msg, ps[1..], s');
      var i :| 0 <= i < |ps| - 1 && ChoiceFrom(msg, ps[1..], s') == ps[1..][i](ChoiceAt(ps[1..], i, s')) &&
        forall j :: 0 <= j < i ==> ps[1..][j](ChoiceAt(ps[1..], j, s')).Failure?;
      assert ChoiceAt(ps, i + 1, s) == ChoiceAt(ps[1..], i, s');
      forall j | 0 <= j < i + 1
        ensures ps[j](ChoiceAt(ps, j, s)).Failure?
      {
        if j > 0 {
          assert ChoiceAt(ps, j, s) == ChoiceAt(ps[1..], j - 1, s');
        }
      }
    }
  }

  /** When Choice fails, every alternative has failed. */
  lemma {:induction false} ChoiceAllFail<A>(msg: string, ps: seq<Parser<A>>, s: Scan)
    requires ChoiceFrom(msg, ps, s).Failure?
    ensures forall j :: 0 <= j < |ps| ==> ps[j](ChoiceAt(ps, j, s)).Failure?
    decreases |ps|
  {
    if ps != [] {
      var s' := Restore(ps[0](s).state, s.pos);
      ChoiceAllFail(msg, ps[1..], s');
      forall j | 0 <= j < |ps|
        ensures ps[j](ChoiceAt(ps, j, s)).Failure?
      {
        if j > 0 {
          assert ChoiceAt(ps, j, s) == ChoiceAt(ps[1..], j - 1, s');
        }
      }
    }
  }

  /**
   * Choice of two alternatives against Or: the same successes and the
   * same failing state; only the error differs, msg instead of both
   * alternatives' errors.
   */
  lemma ChoiceOfTwo<A>(msg: string, p: Parser<A>, q: Parser<A>, s: Scan)
    ensures Choice(msg, [p, q])(s).Success? <==> Or(p, q)(s).Success?
    ensures Or(p, q)(s).Success? ==> Choice(msg, [p, q])(s) == Or(p, q)(s)
    ensures Or(p, q)(s).Failure? ==> Choice(msg, [p, q])(s) == Failure(Message(msg), Or(p, q)(s).state)
  {
    var s1 := Restore(p(s).state, s.pos);
    assert [p, q][1..] == [q];
    assert [q][1..] == [];
    if p(s).Failure? {
      assert ChoiceFrom(msg, [p, q], s) == ChoiceFrom(msg, [q], s1);
      if q(s1).Failure? {
        assert ChoiceFrom(msg, [q], s1) == ChoiceFrom(msg, [], Restore(q(s1).state, s.pos));
      }
    }
  }

  /** Choice's for loop, run on a scanner state. */
  method RunChoice<A>(msg: string, ps: seq<Parser<A>>, s: Scan) returns (r: Reply<Scan, A>)
    ensures r == Choice(msg, ps)(s)
  {
    var cur := s;
    for i := 0 to |ps|
      invariant cur.input == s.input && cur.pos == s.pos
      invariant ChoiceFrom(msg, ps[i..], cur) == ChoiceFrom(msg, ps, s)
    {
      assert ps[i..][1..] == ps[i + 1..];
      var res := Try(ps[i])(cur);
      if res.Success? {
        return res;
      }
      cur := res.state;
    }
    return Failure(Message(msg), cur);
  }

  /**
   * OrCommitted(p, q): committed choice, what the test "p consumes input"
   * expects of Or. A p that fails after consuming input fails the whole
   * choice with its own error; q runs only when p failed in place.
   */
  function OrCommitted<A>(p: Parser<A>, q: Parser<A>): (r: Parser<A>)
    ensures forall s: Scan :: p(s).Failure? && p(s).state.pos != s.pos ==> r(s) == p(s)
    ensures forall s: Scan :: r(s).Success? <==>
      p(s).Success? || (p(s).state.pos == s.pos && q(p(s).state).Success?)
  {
    (s: Scan) =>
      match p(s)
      case Success(res, s1) => Success(res, s1)
      case Failure(err1, s1) =>
        if s1.pos != s.pos then Failure(err1, s1)
        else
          match q(s1)
          case Failure(err2, s2) => Failure(Combine(err1, err2), s2)
          case Success(res, s2) => Success(res, s2)
  }

  /**
   * Or and committed choice part only where p fails after consuming
   * input: everywhere else they succeed together, with the same value.
   */
  lemma OrCommittedAgrees<A>(p: Parser<A>, q: Parser<A>, s: Scan)
    requires p(s).Success? || p(s).state.pos == s.pos
    ensures Or(p, q)(s).Success? <==> OrCommitted(p, q)(s).Success?
    ensures Or(p, q)(s).Success? ==> Or(p, q)(s).value == OrCommitted(p, q)(s).value
  {
    if p(s).Failure? {
      assert Restore(p(s).state, s.pos) == p(s).state;
    }
  }

  /** The test's p: read one rune, then fail with msg; at the end of the input, the read's EOF. */
  function ReadThenFail(msg: string): (p: Parser<int>)
    ensures forall s: Scan :: p(s).Failure?
    ensures forall s: Scan :: s.pos < |s.input| ==> p(s).error == Message(msg) && p(s).state.pos > s.pos
  {
    (s: Scan) =>
      match ReadRuneStep(s)
      case Failure(err, s1) => Failure(err, s1)
      case Success(_, s1) => Failure(Message(msg), s1)
  }

  /** The bytes of "input", the text the test scans, and the message of its p. */
  const TestInput: seq<byte> := [0x69, 0x6E, 0x70, 0x75, 0x74]
  const TestMessage: string := "p consumes input"

  /** On "input" the test's p reads the first byte and fails there with its message. */
  lemma ReadThenFailOnTestInput()
    ensures var r := ReadThenFail(TestMessage)(NewScan(TestInput));
      r.Failure? && r.error == Message(TestMessage) && r.state.pos == 1
  {
    var s := NewScan(TestInput);
    assert Decode(TestInput, 0).1 == 1;
    assert ReadRuneStep(s).state.pos == 1;
  }

  /** A p that fails after consuming is rewound by Or, and a q that always succeeds then answers. */
  lemma OrRetriesConsumed<A>(p: Parser<A>, v: A, s: Scan)
    requires p(s).Failure? && p(s).state.pos != s.pos
    ensures Or(p, Return(v))(s).Success? && Or(p, Return(v))(s).value == v && Or(p, Return(v))(s).state.pos == s.pos
    ensures OrCommitted(p, Return(v))(s) == p(s)
  {
  }

  /**
   * On "input", Or(p, q) with the test's p and a q answering 1 succeeds
   * with 1 at the start, since Try rewinds p's read. The test expects p's
   * error, which is what committed choice gives.
   */
  lemma OrConsumedDisagrees()
    ensures var r := Or(ReadThenFail(TestMessage), Return(1))(NewScan(TestInput));
      r.Success? && r.value == 1 && r.state.pos == 0
    ensures var r := OrCommitted(ReadThenFail(TestMessage), Return(1))(NewScan(TestInput));
      r.Failure? && r.error == Message(TestMessage) && r.state.pos == 1
  {
    ReadThenFailOnTestInput();
    OrRetriesConsumed(ReadThenFail(TestMessage), 1, NewScan(TestInput));
  }
}
