/** Alternation in the avramx engine (avramx/alternatives.go). */
module AvramxAlternatives {
  import opened Errors
  import opened Replies
  import opened AvramxScanner
  import opened AvramxParser

  /**
   * Or(p, q): p's outcome if it succeeds; otherwise q's, run from the
   * position p started at, whatever p consumed. When both fail the error
   * lists p's errors and then q's.
   */
  function Or<T(!new), A>(p: Parser<T, A>, q: Parser<T, A>): (r: Parser<T, A>)
    ensures forall s: Scan<T> :: p(s).Success? ==> r(s) == p(s)
    ensures forall s: Scan<T> :: p(s).Failure? ==>
      var s1 := Restore(p(s).state, s.pos);
      (q(s1).Success? ==> r(s) == q(s1)) &&
      (q(s1).Failure? ==> r(s) == Failure(Combine(p(s).error, q(s1).error), q(s1).state))
    ensures forall s: Scan<T> :: r(s).Failure? ==> Flatten(r(s).error) == Flatten(p(s).error) + Flatten(q(Restore(p(s).state, s.pos)).error)
  {
    (s: Scan<T>) =>
      var start := s.pos;
      match p(s)
      case Success(res, s1) => Success(res, s1)
      case Failure(err1, s1) =>
        match q(Restore(s1, start))
        case Failure(err2, s2) => Failure(Combine(err1, err2), s2)
        case Success(res, s2) => Success(res, s2)
  }

  /** Or with an alternative that never fails never fails. */
  lemma OrTotal<T(!new), A>(p: Parser<T, A>, q: Parser<T, A>)
    requires forall s: Scan<T> :: q(s).Success?
    ensures forall s: Scan<T> :: Or(p, q)(s).Success?
  {
  }

  /**
   * Choice's loop from alternative ps[0] on, every alternative starting at
   * s's position, errs holding the errors of the alternatives already
   * tried.
   */
  function ChoiceFrom<T(!new), A>(msg: string, ps: seq<Parser<T, A>>, errs: Option<Error>, s: Scan<T>): (r: Reply<Scan<T>, A>)
    ensures Extends(s, r.state)
    ensures r.Failure? ==> r.state.pos == s.pos && r.error.Expected? && r.error.what == msg
    decreases |ps|
  {
    if ps == [] then Failure(Expected(msg, errs), s)
    else
      match ps[0](s)
      case Success(val, s1) => Success(val, s1)
      case Failure(err, s1) => ChoiceFrom(msg, ps[1..], Some(Append(errs, err)), Restore(s1, s.pos))
  }

  /**
   * A success of Choice's loop is the reply of one of the alternatives,
   * run where Choice runs it, after every earlier alternative failed.
   */
  lemma {:induction false} ChoiceFromWinner<T(!new), A>(msg: string, ps: seq<Parser<T, A>>, errs: Option<Error>, s: Scan<T>)
    requires ChoiceFrom(msg, ps, errs, s).Success?
    ensures exists i :: 0 <= i < |ps| && ChoiceFrom(msg, ps, errs, s) == ps[i](ChoiceAt(ps, i, s)) &&
                        forall j :: 0 <= j < i ==> ps[j](ChoiceAt(ps, j, s)).Failure?
    decreases |ps|
  {
    if ps[0](s).Success? {
      assert ChoiceAt(ps, 0, s) == s;
    } else {
      var s' := Restore(ps[0](s).state, s.pos);
      var errs' := Some(Append(errs, ps[0](s).error));
      ChoiceFromWinner(msg, ps[1..], errs', s');
      var i :| 0 <= i < |ps| - 1 && ChoiceFrom(msg, ps[1..], errs', s') == ps[1..][i](ChoiceAt(ps[1..], i, s')) &&
        forall j :: 0 <= j < i ==> ps[1..][j](ChoiceAt(ps[1..], j, s')).Failure?;
      assert ChoiceAt(ps, i + 1, s) == ChoiceAt(ps[1..], i, s');
      forall j | 0 <= j < i + 1
        ensures ps[j](ChoiceAt(ps, j, s)).Failure?
      {
        if j > 0 {
          assert ChoiceAt(ps, j, s) == ChoiceAt(ps[1..], j - 1, s');
        }
      }
    }
  }

  /**
   * The state the i-th alternative of Choice starts from: the starting
   * position, with whatever the earlier alternatives pulled into the
   * buffer.
   */
  function ChoiceAt<T(!new), A>(ps: seq<Parser<T, A>>, i: nat, s: Scan<T>): (s': Scan<T>)
    requires i <= |ps|
    ensures Extends(s, s') && s'.pos == s.pos
    decreases i
  {
    if i == 0 then s else ChoiceAt(ps[1..], i - 1, Restore(ps[0](s).state, s.pos))
  }

  /**
   * Choice(msg, ps): the first alternative that succeeds, each one tried
   * from the starting position. When none does, it fails with "expected
   * <msg>" wrapping every alternative's error, at the starting position.
   */
  function Choice<T(!new), A>(msg: string, ps: seq<Parser<T, A>>): (r: Parser<T, A>)
    ensures forall s: Scan<T> :: r(s).Failure? ==> r(s).state.pos == s.pos && r(s).error.Expected? && r(s).error.what == msg
  {
    (s: Scan<T>) => ChoiceFrom(msg, ps, None, s)
  }

  /**
   * When Choice succeeds, its reply is that of the first alternative to
   * succeed: every earlier one, tried from the starting position, failed.
   */
  lemma ChoiceWinner<T(!new), A>(msg: string, ps: seq<Parser<T, A>>, s: Scan<T>)
    requires Choice(msg, ps)(s).Success?
    ensures exists i :: 0 <= i < |ps| && Choice(msg, ps)(s) == ps[i](ChoiceAt(ps, i, s)) && ChoiceAt(ps, i, s).pos == s.pos &&
                        forall j :: 0 <= j < i ==> ps[j](ChoiceAt(ps, j, s)).Failure?
  {
    ChoiceFromWinner(msg, ps, None, s);
  }

  /** The errors of Choice's alternatives as they are tried, up to the first that succeeds. */
  ghost function BranchErrors<T(!new), A>(ps: seq<Parser<T, A>>, s: Scan<T>): seq<Error>
    decreases |ps|
  {
    if ps == [] || ps[0](s).Success? then []
    else [ps[0](s).error] + BranchErrors(ps[1..], Restore(ps[0](s).state, s.pos))
  }

  /** When Choice fails, the error it wraps lists the errors of all alternatives, in order. */
  lemma ChoiceCollectsErrors<T(!new), A>(msg: string, ps: seq<Parser<T, A>>, s: Scan<T>)
    requires Choice(msg, ps)(s).Failure?
    ensures var e := Choice(msg, ps)(s).error;
      |BranchErrors(ps, s)| == |ps| &&
      (ps == [] ==> e.causes.None?) &&
      (ps != [] ==> e.causes.Some? && Flatten(e.causes.value) == FlattenAll(BranchErrors(ps, s)))
  {
    AllBranchesFail(msg, ps, None, s);
    if ps != [] {
      ChoiceFromCollects(msg, ps, None, [], s);
      assert [] + BranchErrors(ps, s) == BranchErrors(ps, s);
    }
  }

  /** When Choice's loop fails, every alternative has failed. */
  lemma {:induction false} AllBranchesFail<T(!new), A>(msg: string, ps: seq<Parser<T, A>>, errs: Option<Error>, s: Scan<T>)
    requires ChoiceFrom(msg, ps, errs, s).Failure?
    ensures |BranchErrors(ps, s)| == |ps|
    ensures ps == [] ==> ChoiceFrom(msg, ps, errs, s).error.causes == errs
    decreases |ps|
  {
    if ps != [] {
      AllBranchesFail(msg, ps[1..], Some(Append(errs, ps[0](s).error)), Restore(ps[0](s).state, s.pos));
    }
  }

  lemma {:induction false} ChoiceFromCollects<T(!new), A>(msg: string, ps: seq<Parser<T, A>>, errs: Option<Error>, before: seq<Error>, s: Scan<T>)
    requires errs.None? ==> before == [] && ps != []
    requires errs.Some? ==> Flatten(errs.value) == FlattenAll(before)
    requires ChoiceFrom(msg, ps, errs, s).Failure?
    ensures var e := ChoiceFrom(msg, ps, errs, s).error;
      e.causes.Some? && Flatten(e.causes.value) == FlattenAll(before + BranchErrors(ps, s))
    decreases |ps|
  {
    if ps == [] {
      assert before + [] == before;
    } else {
      var r0 := ps[0](s);
      var s' := Restore(r0.state, s.pos);
      var errs' := Some(Append(errs, r0.error));
      assert r0.Failure? && ChoiceFrom(msg, ps, errs, s) == ChoiceFrom(msg, ps[1..], errs', s');
      var rest := BranchErrors(ps[1..], s');
      var before' := before + [r0.error];
      assert before + BranchErrors(ps, s) == before' + rest by {
        assert BranchErrors(ps, s) == [r0.error] + rest;
      }
      AppendAccumulates(errs, r0.error, before);
      ChoiceFromCollects(msg, ps[1..], errs', before', s');
    }
  }

  /**
   * Choice of two alternatives against Or: the same successes; on failure
   * the same errors (wrapped as "expected <msg>"), but Choice rewinds to
   * the start after the last alternative too, where Or does not.
   */
  lemma ChoiceOfTwo<T(!new), A>(msg: string, p: Parser<T, A>, q: Parser<T, A>, s: Scan<T>)
    ensures Choice(msg, [p, q])(s).Success? <==> Or(p, q)(s).Success?
    ensures Or(p, q)(s).Success? ==> Choice(msg, [p, q])(s) == Or(p, q)(s)
    ensures Or(p, q)(s).Failure? ==>
      Choice(msg, [p, q])(s) == Failure(Expected(msg, Some(Or(p, q)(s).error)), Restore(Or(p, q)(s).state, s.pos))
  {
    var s1 := Restore(p(s).state, s.pos);
    assert [p, q][1..] == [q];
    assert [q][1..] == [];
    if p(s).Failure? && q(s1).Failure? {
      assert ChoiceFrom(msg, [q], Some(p(s).error), s1) == ChoiceFrom(msg, [], Some(Combine(p(s).error, q(s1).error)), Restore(q(s1).state, s.pos));
    }
  }

  /** Choice's for loop, run on a scanner state. */
  method RunChoice<T(!new), A>(msg: string, ps: seq<Parser<T, A>>, s: Scan<T>) returns (r: Reply<Scan<T>, A>)
    ensures r == Choice(msg, ps)(s)
  {
    var start := s.pos;
    var cur := s;
    var errs: Option<Error> := None;
    for i := 0 to |ps|
      invariant cur.pos == start && Extends(s, cur)
      invariant ChoiceFrom(msg, ps[i..], errs, cur) == ChoiceFrom(msg, ps, None, s)
    {
      assert ps[i..][1..] == ps[i + 1..];
      var res := ps[i](cur);
      if res.Success? {
        return res;
      }
      errs := Some(Append(errs, res.error));
      cur := Restore(res.state, start);
    }
    return Failure(Expected(msg, errs), cur);
  }
}
