/**
 * The text parsers of the root engine (text.go): single runes, runs of
 * runes, whitespace, and parsers that report the scanner's position and
 * input. Runes are UTF-8 decoded from the byte input as Go's
 * utf8.DecodeRuneInString does.
 */
module AvramText {
  import opened Errors
  import opened Replies
  import opened Utf8
  import opened UnicodeClasses
  import opened AvramScanner
  import opened AvramParser
  import opened AvramCombinators
  import opened AvramLazy

  /** MatchString(target): the target, when the input holds it at the position; otherwise nothing consumed. */
  function MatchString(target: seq<byte>): (p: Parser<seq<byte>>)
    ensures forall s: Scan :: p(s) == MatchStringStep(target, s)
    ensures forall s: Scan :: p(s).Success? ==> p(s).value == target
    ensures forall s: Scan :: p(s).Failure? ==> p(s).state.pos == s.pos
    ensures Forward(p)
  {
    (s: Scan) => MatchStringStep(target, s)
  }

  /** For an ASCII target, MatchString succeeds exactly on the inputs that hold the target next. */
  lemma MatchStringHolds(target: seq<byte>, s: Scan)
    requires IsAscii(target)
    ensures MatchString(target)(s).Success? <==>
      s.pos + |target| <= |s.input| && s.input[s.pos..s.pos + |target|] == target
    ensures MatchString(target)(s).Success? ==> MatchString(target)(s).state.pos == s.pos + |target|
  {
    MatchStringAscii(target, s);
    if s.pos + |target| <= |s.input| && s.input[s.pos..s.pos + |target|] == target {
      forall k | 0 <= k < |target|
        ensures s.input[s.pos + k] == target[k]
      {
        assert s.input[s.pos..s.pos + |target|][k] == target[k];
      }
    }
  }

  /**
   * MatchRune(accept) as a parser: the next rune when accept has no
   * objection to it. A refused rune, or the end of input, consumes nothing.
   */
  function MatchRune(accept: int -> Errors.Option<Error>): (p: Parser<int>)
    ensures forall s: Scan :: p(s) == MatchRuneStep(accept, s)
    ensures Forward(p) && Progress(p)
  {
    (s: Scan) => MatchRuneStep(accept, s)
  }

  /** The objection Rune raises to a rune other than want. */
  function ExpectRune(want: int): int -> Errors.Option<Error>
  {
    (o: int) => if want != o then Some(ExpectedRune(want)) else None
  }

  /** Rune(want): the next rune, when it is want. */
  function Rune(want: int): (p: Parser<int>)
    ensures Forward(p) && Progress(p)
  {
    MatchRune(ExpectRune(want))
  }

  /** Rune(want) accepts exactly want; otherwise it reports "expected want", or EOF, and consumes nothing. */
  lemma RuneReads(want: int, s: Scan)
    ensures var r := Rune(want)(s);
      (r.Success? <==> s.pos < |s.input| && Decode(s.input, s.pos).0 == want) &&
      (r.Success? ==> r.value == want && r.state.pos == s.pos + Decode(s.input, s.pos).1) &&
      (r.Failure? ==> r.state.pos == s.pos && r.error == if s.pos == |s.input| then EOF else ExpectedRune(want))
  {
  }

  /** The objection Range raises to a rune outside lo..hi. */
  function InRange(lo: int, hi: int): int -> Errors.Option<Error>
  {
    (r: int) => if lo > r || r > hi then Some(RuneOutOfRange(r, lo, hi)) else None
  }

  /** Range(lo, hi): the next rune, when it lies between lo and hi inclusive. */
  function Range(lo: int, hi: int): (p: Parser<int>)
    ensures Forward(p) && Progress(p)
  {
    MatchRune(InRange(lo, hi))
  }

  /** Range(lo, hi) accepts exactly the runes from lo to hi; otherwise it names the rune and the bounds. */
  lemma RangeReads(lo: int, hi: int, s: Scan)
    ensures var r := Range(lo, hi)(s);
      (r.Success? <==> s.pos < |s.input| && lo <= Decode(s.input, s.pos).0 <= hi) &&
      (r.Success? ==> r.value == Decode(s.input, s.pos).0 && r.state.pos == s.pos + Decode(s.input, s.pos).1) &&
      (r.Failure? ==>
        r.state.pos == s.pos &&
        r.error == if s.pos == |s.input| then EOF else RuneOutOfRange(Decode(s.input, s.pos).0, lo, hi))
  {
  }

  /** The objection NotRune raises to the rune r itself. */
  function Unexpected(r: int): int -> Errors.Option<Error>
  {
    (o: int) => if r == o then Some(UnexpectedRune(r)) else None
  }

  /** NotRune(r): the next rune, when it is not r. */
  function NotRune(r: int): (p: Parser<int>)
    ensures Forward(p) && Progress(p)
  {
    MatchRune(Unexpected(r))
  }

  /** NotRune(r) accepts every rune but r; on r it reports "unexpected r" and consumes nothing. */
  lemma NotRuneReads(x: int, s: Scan)
    ensures var r := NotRune(x)(s);
      (r.Success? <==> s.pos < |s.input| && Decode(s.input, s.pos).0 != x) &&
      (r.Success? ==> r.value == Decode(s.input, s.pos).0 && r.state.pos == s.pos + Decode(s.input, s.pos).1) &&
      (r.Failure? ==> r.state.pos == s.pos && r.error == if s.pos == |s.input| then EOF else UnexpectedRune(x))
  {
  }

  /** The objection Satisfy raises to a rune f rejects. */
  function Satisfies(f: int -> bool): int -> Errors.Option<Error>
  {
    (r: int) => if !f(r) then Some(PredicateRejected(r)) else None
  }

  /** Satisfy(f): the next rune, when f accepts it. */
  function Satisfy(f: int -> bool): (p: Parser<int>)
    ensures Forward(p) && Progress(p)
  {
    MatchRune(Satisfies(f))
  }

  /** Satisfy(f) accepts exactly the runes f accepts; otherwise it names the rune and consumes nothing. */
  lemma SatisfyReads(f: int -> bool, s: Scan)
    ensures var r := Satisfy(f)(s);
      (r.Success? <==> s.pos < |s.input| && f(Decode(s.input, s.pos).0)) &&
      (r.Success? ==> r.value == Decode(s.input, s.pos).0 && r.state.pos == s.pos + Decode(s.input, s.pos).1) &&
      (r.Failure? ==>
        r.state.pos == s.pos &&
        r.error == if s.pos == |s.input| then EOF else PredicateRejected(Decode(s.input, s.pos).0))
  {
  }

  /** Rune(want) is Satisfy of equality with want, up to the error it reports. */
  lemma RuneIsSatisfy(want: int, s: Scan)
    ensures Rune(want)(s).Success? <==> Satisfy((r: int) => r == want)(s).Success?
    ensures Rune(want)(s).state == Satisfy((r: int) => r == want)(s).state
  {
  }

  /** AnyRune: the next rune, failing with EOF only at the end of input. */
  function AnyRune(): (p: Parser<int>)
    ensures Forward(p) && Progress(p)
  {
    (s: Scan) => ReadRuneStep(s)
  }

  /** AnyRune fails only at the end of input, with EOF; otherwise it reads the next rune. */
  lemma AnyRuneReads(s: Scan)
    ensures var r := AnyRune()(s);
      (r.Success? <==> s.pos < |s.input|) &&
      (r.Success? ==> r.value == Decode(s.input, s.pos).0 && r.state.pos == s.pos + Decode(s.input, s.pos).1) &&
      (r.Failure? ==> r.error == EOF && r.state.pos == s.pos)
  {
  }

  /** Runes(rs): membership in the set of runes rs, the set built once by a loop. */
  method Runes(rs: seq<int>) returns (f: int -> bool)
    ensures forall r :: f(r) <==> r in rs
  {
    var members: set<int> := {};
    for i := 0 to |rs|
      invariant forall r :: r in members <==> r in rs[..i]
    {
      assert rs[..i + 1] == rs[..i] + [rs[i]];
      members := members + {rs[i]};
    }
    assert rs[..|rs|] == rs;
    f := (r: int) => r in members;
  }

  /** Skip(f): Satisfy(f), with the rune dropped. */
  function Skip(f: int -> bool): (p: Parser<()>)
    ensures forall s: Scan :: p(s).Success? <==> Satisfy(f)(s).Success?
    ensures forall s: Scan :: p(s).state == Satisfy(f)(s).state
    ensures forall s: Scan :: p(s).Failure? ==> p(s).error == Satisfy(f)(s).error
  {
    DiscardLeft(Satisfy(f), Return(()))
  }

  /**
   * Many(Satisfy(f)) reads exactly the longest run of runes that f
   * accepts: it stops at the first rune f rejects, or at the end of input.
   */
  lemma {:induction false} ManySatisfyRunEnd(f: int -> bool, s: Scan)
    ensures Many(Satisfy(f))(s).state.pos == RunEnd(s.input, s.pos, f)
    decreases Ahead(s)
  {
    var p := Satisfy(f);
    var r := p(s);
    SatisfyReads(f, s);
    ManyStep(p, s);
    if r.Success? {
      var next := r.state;
      ManySatisfyRunEnd(f, next);
      RunEndAfterRune(s.input, s.pos, next.pos, f);
    } else {
      RunEndStep(s.input, s.pos, f);
    }
  }

  /** A run that starts with a rune f accepts ends where the run after that rune ends. */
  lemma RunEndAfterRune(input: seq<byte>, i: nat, j: nat, f: int -> bool)
    requires i < |input| && f(Decode(input, i).0) && j == i + Decode(input, i).1
    ensures RunEnd(input, i, f) == RunEnd(input, j, f)
  {
    RunEndStep(input, i, f);
  }

  /** SkipWhile(f): skip the longest run of runes f accepts; it never fails. */
  function SkipWhile(f: int -> bool): (p: Parser<()>)
    ensures forall s: Scan :: p(s).Success?
    ensures forall s: Scan :: p(s).state.pos == RunEnd(s.input, s.pos, f)
  {
    var q := DiscardLeft(Many(Satisfy(f)), Return(()));
    assert forall s: Scan :: q(s).state.pos == RunEnd(s.input, s.pos, f) by {
      forall s: Scan
        ensures q(s).state.pos == RunEnd(s.input, s.pos, f)
      {
        ManySatisfyRunEnd(f, s);
      }
    }
    q
  }

  /**
   * Consumed(p): the bytes p consumed, when it succeeds. Go slices
   * input[start:pos], which would panic were p to move backwards; hence
   * the requirement.
   */
  function Consumed<A>(p: Parser<A>): (q: Parser<seq<byte>>)
    requires Forward(p)
    ensures forall s: Scan :: q(s).state == p(s).state
    ensures forall s: Scan :: q(s).Success? <==> p(s).Success?
    ensures forall s: Scan :: p(s).Success? ==> q(s).value == s.input[s.pos..p(s).state.pos]
    ensures forall s: Scan :: p(s).Failure? ==> q(s).error == p(s).error
    ensures Forward(q)
  {
    (s: Scan) =>
      var start := s.pos;
      match p(s)
      case Failure(err, s1) => Failure(err, s1)
      case Success(_, s1) => Success(s1.input[start..s1.pos], s1)
  }

  /** Where n runes from byte i end, if the input has n more runes. */
  function RunesEnd(input: seq<byte>, i: nat, n: nat): (e: Errors.Option<nat>)
    requires i <= |input|
    ensures e.Some? ==> i <= e.value <= |input|
    ensures n == 0 ==> e == Some(i)
    decreases n
  {
    if n == 0 then Some(i)
    else if i == |input| then None
    else RunesEnd(input, i + Decode(input, i).1, n - 1)
  }

  /** Count(n, AnyRune) reads exactly n runes, or fails with EOF when the input has fewer. */
  lemma {:induction false} CountAnyRune(n: nat, s: Scan)
    ensures var r := CountFrom(n, AnyRune(), s); var e := RunesEnd(s.input, s.pos, n);
      (r.Success? <==> e.Some?) &&
      (r.Success? ==> r.state.pos == e.value) &&
      (r.Failure? ==> r.error == EOF)
    decreases n
  {
    if n > 0 && s.pos < |s.input| {
      var next := ReadRuneStep(s).state;
      assert AnyRune()(s) == ReadRuneStep(s);
      CountAnyRune(n - 1, next);
      assert RunesEnd(s.input, s.pos, n) == RunesEnd(next.input, next.pos, n - 1);
    }
  }

  /** Take(n): the bytes of the next n runes (none when n is not positive). */
  function Take(n: int): (p: Parser<seq<byte>>)
    ensures forall s: Scan :: p(s).Success? <==> RunesEnd(s.input, s.pos, if n < 0 then 0 else n).Some?
    ensures forall s: Scan :: p(s).Success? ==>
      var e := RunesEnd(s.input, s.pos, if n < 0 then 0 else n).value;
      p(s).value == s.input[s.pos..e] && p(s).state.pos == e
    ensures forall s: Scan :: p(s).Failure? ==> p(s).error == EOF
  {
    var q := Consumed(Count(n, AnyRune()));
    assert forall s: Scan :: var e := RunesEnd(s.input, s.pos, if n < 0 then 0 else n);
      (q(s).Success? <==> e.Some?) && (q(s).Success? ==> q(s).state.pos == e.value) && (q(s).Failure? ==> q(s).error == EOF) by {
      forall s: Scan
        ensures var e := RunesEnd(s.input, s.pos, if n < 0 then 0 else n);
          (q(s).Success? <==> e.Some?) && (q(s).Success? ==> q(s).state.pos == e.value) && (q(s).Failure? ==> q(s).error == EOF)
      {
        CountAnyRune(if n < 0 then 0 else n, s);
      }
    }
    q
  }

  /** TakeWhile(f): the bytes of the longest run of runes f accepts, possibly none; it never fails. */
  function TakeWhile(f: int -> bool): (p: Parser<seq<byte>>)
    ensures forall s: Scan :: p(s).Success?
    ensures Forward(p)
  {
    Consumed(Many(Satisfy(f)))
  }

  /** TakeWhile(f) returns, and moves past, exactly the longest run of runes f accepts. */
  lemma TakeWhileReads(f: int -> bool, s: Scan)
    ensures var e := RunEnd(s.input, s.pos, f);
      TakeWhile(f)(s).value == s.input[s.pos..e] && TakeWhile(f)(s).state.pos == e
  {
    ManySatisfyRunEnd(f, s);
  }

  /** TakeWhile1(f): as TakeWhile, but failing when f rejects the first rune or the input is at its end. */
  function TakeWhile1(f: int -> bool): (p: Parser<seq<byte>>)
    ensures Forward(p)
  {
    Consumed(Many1(Satisfy(f)))
  }

  /** TakeWhile1(f) fails exactly when no rune f accepts comes next; otherwise it reads as TakeWhile(f). */
  lemma TakeWhile1Reads(f: int -> bool, s: Scan)
    ensures TakeWhile1(f)(s).Success? <==> s.pos < |s.input| && f(Decode(s.input, s.pos).0)
    ensures TakeWhile1(f)(s).Success? ==>
      TakeWhile1(f)(s).value == TakeWhile(f)(s).value && TakeWhile1(f)(s).state.pos == TakeWhile(f)(s).state.pos
    ensures TakeWhile1(f)(s).Failure? ==> TakeWhile1(f)(s).state.pos == s.pos
  {
    SatisfyReads(f, s);
    TakeWhileReads(f, s);
    var s1 := Satisfy(f)(s).state;
    if TakeWhile1(f)(s).Success? {
      ManySatisfyRunEnd(f, s1);
      assert RunEnd(s.input, s.pos, f) == RunEnd(s.input, s1.pos, f);
    }
  }

  /** TakeTill(f): the bytes up to the first rune f accepts, or to the end of input; it never fails. */
  function TakeTill(f: int -> bool): (p: Parser<seq<byte>>)
    ensures forall s: Scan :: p(s).Success?
    ensures Forward(p)
  {
    TakeWhile(Negate(f))
  }

  /** TakeTill(f) stops at the first rune f accepts: every rune it returns is one f rejects. */
  lemma TakeTillReads(f: int -> bool, s: Scan)
    ensures var e := TakeTill(f)(s).state.pos;
      TakeTill(f)(s).value == s.input[s.pos..e] &&
      AllSatisfy(s.input, s.pos, e, Negate(f)) &&
      (e < |s.input| ==> f(Decode(s.input, e).0))
  {
    TakeWhileReads(Negate(f), s);
  }

  /**
   * TakeTill1(f): as TakeTill, but failing with its fixed message when
   * not a single rune comes before the first rune f accepts.
   */
  function TakeTill1(f: int -> bool): (p: Parser<seq<byte>>)
    ensures forall s: Scan :: p(s) == RequireNonEmpty(TakeTill(f)(s))
  {
    var q := TakeTill(f);
    (s: Scan) => RequireNonEmpty(q(s))
  }

  /** The check TakeTill1 adds to TakeTill's reply: at least one byte must have been taken. */
  function RequireNonEmpty(r: Reply<Scan, seq<byte>>): (out: Reply<Scan, seq<byte>>)
    ensures out.state == r.state
    ensures out.Success? <==> r.Success? && |r.value| > 0
    ensures out.Success? ==> out.value == r.value
    ensures r.Failure? ==> out.error == r.error
    ensures r.Success? && |r.value| == 0 ==> out.error == Message(EmptyTakeTill)
  {
    match r
    case Failure(err, s1) => Failure(err, s1)
    case Success(out, s1) => if |out| == 0 then Failure(Message(EmptyTakeTill), s1) else Success(out, s1)
  }

  /** TakeTill1(f) fails exactly when the input is at its end or its next rune is one f accepts. */
  lemma TakeTill1Fails(f: int -> bool, s: Scan)
    ensures TakeTill1(f)(s).Success? <==> s.pos < |s.input| && !f(Decode(s.input, s.pos).0)
  {
    var g := Negate(f);
    var e := RunEnd(s.input, s.pos, g);
    TakeWhileReads(g, s);
    assert |TakeTill(f)(s).value| == e - s.pos;
    if s.pos < |s.input| && !f(Decode(s.input, s.pos).0) {
      RunEndAfterRune(s.input, s.pos, s.pos + Decode(s.input, s.pos).1, g);
    } else {
      RunEndStep(s.input, s.pos, g);
    }
  }

  /** Position: the scanner's byte position, consuming nothing. */
  function Position(): (p: Parser<nat>)
    ensures forall s: Scan :: p(s).Success? && p(s).state == s
    ensures forall s: Scan :: p(s).value <= |s.input|
  {
    (s: Scan) => Success(s.pos, s)
  }

  /** Input: the whole input, consuming nothing. */
  function Input(): (p: Parser<seq<byte>>)
    ensures forall s: Scan :: p(s).Success? && p(s).state == s
  {
    (s: Scan) => Success(s.input, s)
  }

  /** Remaining: the input not yet consumed, consuming nothing. */
  function Remaining(): (p: Parser<seq<byte>>)
    ensures forall s: Scan :: p(s).Success? && p(s).state == s
    ensures forall s: Scan :: |p(s).value| == Ahead(s)
  {
    (s: Scan) => Success(s.input[s.pos..], s)
  }

  /** The input is what lies before the position followed by what remains. */
  lemma InputSplitsAtPosition(s: Scan)
    ensures Input()(s).value == Input()(s).value[..Position()(s).value] + Remaining()(s).value
  {
    assert s.input == s.input[..s.pos] + s.input[s.pos..];
  }

  /** What a forward parser consumed followed by what then remains is what remained before it. */
  lemma ConsumedThenRemaining<A>(p: Parser<A>, s: Scan)
    requires Forward(p) && p(s).Success?
    ensures Consumed(p)(s).value + Remaining()(Consumed(p)(s).state).value == Remaining()(s).value
  {
    var e := p(s).state.pos;
    assert s.input[s.pos..e] + s.input[e..] == s.input[s.pos..];
  }

  /** Consumed(p) is Location(p) handed the slice of the input between the two positions. */
  lemma ConsumedIsLocation<A>(p: Parser<A>, s: Scan)
    requires Forward(p) && p(s).Success?
    ensures Consumed(p)(s).value ==
      Location(p, (start: nat, end: nat, _: A) => if start <= end <= |s.input| then s.input[start..end] else [])(s).value
  {
  }

  /** Space: one whitespace rune. */
  function Space(): (p: Parser<int>)
    ensures forall s: Scan :: p(s).Success? <==> s.pos < |s.input| && IsSpace(Decode(s.input, s.pos).0)
    ensures Forward(p) && Progress(p)
  {
    Satisfy(IsSpace)
  }

  /** The state after skipping all whitespace from s. */
  function SkipSpace(s: Scan): (t: Scan)
    ensures t.input == s.input && t.pos == RunEnd(s.input, s.pos, IsSpace)
  {
    ManySatisfyRunEnd(IsSpace, s);
    SkipMany(Space())(s).state
  }

  /** SkipWS(p): p with any whitespace before and after it skipped. */
  function SkipWS<A>(p: Parser<A>): (q: Parser<A>)
    ensures forall s: Scan :: q(s).Success? <==> p(SkipSpace(s)).Success?
    ensures forall s: Scan :: p(SkipSpace(s)).Success? ==>
      q(s) == Success(p(SkipSpace(s)).value, SkipSpace(p(SkipSpace(s)).state))
    ensures forall s: Scan :: p(SkipSpace(s)).Failure? ==>
      q(s) == Failure(p(SkipSpace(s)).error, p(SkipSpace(s)).state)
  {
    Wrap(SkipMany(Space()), p, SkipMany(Space()))
  }

  /** TrailingWS(p): p, followed by at least one whitespace rune, all of the following whitespace skipped. */
  function TrailingWS<A>(p: Parser<A>): (q: Parser<A>)
    ensures forall s: Scan :: q(s).Success? <==> p(s).Success? && Space()(p(s).state).Success?
    ensures forall s: Scan :: q(s).Success? ==> q(s).value == p(s).value
  {
    DiscardRight(p, SkipMany1(Space()))
  }

  /** After TrailingWS(p) succeeds, the position is past all the whitespace that follows p. */
  lemma TrailingWSSkipsAll<A>(p: Parser<A>, s: Scan)
    requires TrailingWS(p)(s).Success?
    ensures TrailingWS(p)(s).state.pos == RunEnd(s.input, p(s).state.pos, IsSpace)
  {
    var s1 := p(s).state;
    SatisfyReads(IsSpace, s1);
    ManySatisfyRunEnd(IsSpace, Space()(s1).state);
  }

  /** PrecedingWS(p): at least one whitespace rune, all of the leading whitespace skipped, then p. */
  function PrecedingWS<A>(p: Parser<A>): (q: Parser<A>)
    ensures forall s: Scan :: Space()(s).Failure? ==> q(s) == Failure(Space()(s).error, Space()(s).state)
    ensures forall s: Scan :: Space()(s).Success? ==> q(s) == p(Many(Space())(Space()(s).state).state)
  {
    DiscardLeft(SkipMany1(Space()), p)
  }

  /** PrecedingWS(p) runs p just past the leading whitespace. */
  lemma PrecedingWSSkipsAll<A>(p: Parser<A>, s: Scan)
    requires Space()(s).Success?
    ensures PrecedingWS(p)(s) == p(SkipSpace(s))
  {
  }
}
