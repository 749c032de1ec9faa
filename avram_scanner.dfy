/**
 * The Scanner of the root avram engine (scanner.go): a byte position into
 * a UTF-8 input string, the stack of the widths of the runes read since
 * the history was last cleared, and a count of the '\n' runes read.
 * Nothing restores the line count: a rune read and then unread, or
 * skipped over by a rewind, has been counted.
 */
module AvramScanner {
  import opened Errors
  import opened Replies
  import opened Utf8

  /** What ReadRune answers, as rune and as width, at the end of the input. */
  const EOFRune: int := -1

  /** A Scanner's state as a value. */
  datatype ScanState = ScanState(input: seq<byte>, pos: nat, width: seq<nat>, line: nat)
  {
    predicate Valid()
    {
      pos <= |input|
    }
  }

  type Scan = s: ScanState | s.Valid() witness ScanState([], 0, [], 0)

  /** NewScanner(input): at the start, with no history and the line count at 0. */
  function NewScan(input: seq<byte>): (s: Scan)
    ensures s.input == input && s.pos == 0 && s.width == [] && s.line == 0
  {
    ScanState(input, 0, [], 0)
  }

  /** The number of bytes not yet consumed: what every repetition consumes to make progress. */
  function Ahead(s: Scan): nat
  {
    |s.input| - s.pos
  }

  /** Moving the position back (or on) to a checkpoint, everything else kept: what Try and its kin do. */
  function Restore(s: Scan, k: nat): (r: Scan)
    requires k <= |s.input|
    ensures r.input == s.input && r.width == s.width && r.line == s.line && r.pos == k
  {
    s.(pos := k)
  }

  /**
   * ReadRune: at the end of the input fail with io.EOF and clear the
   * width history; otherwise decode one rune, move past it, push its
   * width and count it when it is '\n'.
   */
  function ReadRuneStep(s: Scan): (r: Reply<Scan, int>)
    ensures r.state.input == s.input
    ensures r.Failure? <==> s.pos == |s.input|
    ensures r.Failure? ==> r == Failure(EOF, s.(width := []))
    ensures r.Success? ==>
      var d := Decode(s.input, s.pos);
      r.value == d.0 && r.state.pos == s.pos + d.1 && s.pos < r.state.pos &&
      r.state.width == s.width + [d.1] &&
      r.state.line == s.line + Newlines(s.input[s.pos..r.state.pos])
  {
    if s.pos >= |s.input| then Failure(EOF, s.(width := []))
    else
      var d := Decode(s.input, s.pos);
      NewlinesOfRune(s.input, s.pos);
      Success(d.0, s.(pos := s.pos + d.1, width := s.width + [d.1], line := s.line + if d.0 == Newline then 1 else 0))
  }

  /** The history's last width can be taken back from the position without going before the input's start. */
  predicate CanUnread(s: Scan)
  {
    |s.width| > 0 ==> s.width[|s.width| - 1] <= s.pos
  }

  /**
   * UnreadRune: pop the last width and step back by it; fail with "no
   * runes to unread" when the history is empty. The line count stays.
   */
  function UnreadStep(s: Scan): (r: Reply<Scan, ()>)
    requires CanUnread(s)
    ensures r.Failure? <==> s.width == []
    ensures r.Failure? ==> r == Failure(Message(NoRunesToUnread), s)
    ensures r.Success? ==> (r.state.input == s.input && r.state.line == s.line &&
      r.state.width + [s.width[|s.width| - 1]] == s.width &&
      r.state.pos + s.width[|s.width| - 1] == s.pos)
  {
    if |s.width| < 1 then Failure(Message(NoRunesToUnread), s)
    else
      var w := s.width[|s.width| - 1];
      Success((), s.(pos := s.pos - w, width := s.width[..|s.width| - 1]))
  }

  /**
   * Unreading right after a successful read takes the scanner back to
   * where it was, width history included; only the line count keeps the
   * '\n' it may have read.
   */
  lemma ReadThenUnread(s: Scan)
    requires s.pos < |s.input|
    ensures CanUnread(ReadRuneStep(s).state)
    ensures var u := UnreadStep(ReadRuneStep(s).state);
      u.Success? && u.state.pos == s.pos && u.state.width == s.width &&
      u.state.line == s.line + (if Decode(s.input, s.pos).0 == Newline then 1 else 0)
  {
    var r := ReadRuneStep(s);
    var d := Decode(s.input, s.pos);
    assert r.state.width[..|r.state.width| - 1] == s.width;
    NewlinesOfRune(s.input, s.pos);
  }

  /**
   * MatchString's loop at byte i of target: read one rune of the input
   * per rune of the target, and on EOF or a mismatch put the position
   * back at the checkpoint (and nothing else) and fail.
   */
  function MatchFrom(target: seq<byte>, i: nat, checkpoint: nat, s: Scan): (r: Reply<Scan, seq<byte>>)
    requires i <= |target| && checkpoint <= s.pos
    ensures r.state.input == s.input
    ensures r.Success? ==> r.value == target && r.state.pos >= s.pos
    ensures r.Failure? ==> r.state.pos == checkpoint
    decreases |target| - i
  {
    if i == |target| then Success(target, s)
    else
      var t := Decode(target, i);
      match ReadRuneStep(s)
      case Failure(err, s1) => Failure(err, Restore(s1, checkpoint))
      case Success(o, s1) =>
        if t.0 != o then Failure(StringMismatch(target, checkpoint), Restore(s1, checkpoint))
        else MatchFrom(target, i + t.1, checkpoint, s1)
  }

  /** One round of MatchString's loop. */
  lemma MatchFromUnfold(target: seq<byte>, i: nat, checkpoint: nat, s: Scan)
    requires i < |target| && checkpoint <= s.pos
    ensures var r := ReadRuneStep(s); var t := Decode(target, i);
      MatchFrom(target, i, checkpoint, s) ==
        if r.Failure? then Failure(r.error, Restore(r.state, checkpoint))
        else if t.0 != r.value then Failure(StringMismatch(target, checkpoint), Restore(r.state, checkpoint))
        else MatchFrom(target, i + t.1, checkpoint, r.state)
  {
  }

  /** MatchString(target) from s. */
  function MatchStringStep(target: seq<byte>, s: Scan): (r: Reply<Scan, seq<byte>>)
    ensures r.state.input == s.input
    ensures r.Success? ==> r.value == target && r.state.pos >= s.pos
    ensures r.Failure? ==> r.state.pos == s.pos
  {
    MatchFrom(target, 0, s.pos, s)
  }

  /** Every byte of t is ASCII. */
  predicate IsAscii(t: seq<byte>)
  {
    forall k :: 0 <= k < |t| ==> t[k] < 0x80
  }

  /** The input holds the bytes t[i..] from byte at on. */
  ghost predicate HoldsAt(input: seq<byte>, at: nat, t: seq<byte>, i: nat)
  {
    i <= |t| && at + (|t| - i) <= |input| &&
    forall k :: i <= k < |t| ==> input[at + k - i] == t[k]
  }

  /**
   * For an ASCII target, MatchString succeeds exactly when the input
   * holds the target at the position, and then it moves just past it.
   */
  lemma MatchStringAscii(target: seq<byte>, s: Scan)
    requires IsAscii(target)
    ensures MatchStringStep(target, s).Success? <==> HoldsAt(s.input, s.pos, target, 0)
    ensures MatchStringStep(target, s).Success? ==> MatchStringStep(target, s).state.pos == s.pos + |target|
  {
    MatchFromAscii(target, 0, s.pos, s);
  }

  lemma {:induction false} MatchFromAscii(target: seq<byte>, i: nat, checkpoint: nat, s: Scan)
    requires IsAscii(target) && i <= |target| && s.pos == checkpoint + i
    ensures MatchFrom(target, i, checkpoint, s).Success? <==> HoldsAt(s.input, s.pos, target, i)
    ensures MatchFrom(target, i, checkpoint, s).Success? ==> MatchFrom(target, i, checkpoint, s).state.pos == checkpoint + |target|
    decreases |target| - i
  {
    if i < |target| {
      MatchFromUnfold(target, i, checkpoint, s);
      if s.pos == |s.input| {
        assert !HoldsAt(s.input, s.pos, target, i);
      } else if s.input[s.pos] == target[i] {
        var r := ReadRuneStep(s);
        assert Decode(target, i) == Decode(s.input, s.pos) == (target[i] as int, 1);
        MatchFromAscii(target, i + 1, checkpoint, r.state);
        HoldsAtShift(s.input, s.pos, target, i);
      } else {
        assert Decode(s.input, s.pos).0 != Decode(target, i).0;
      }
    }
  }

  lemma HoldsAtShift(input: seq<byte>, at: nat, t: seq<byte>, i: nat)
    requires i < |t| && at < |input| && input[at] == t[i]
    ensures HoldsAt(input, at, t, i) <==> HoldsAt(input, at + 1, t, i + 1)
  {
  }

  /**
   * MatchRune(accept): read one rune and keep it when accept reports no error.
   * A rejected rune is unread (that unread cannot fail right after a
   * read), and the error is accept's; at EOF the read's error is returned.
   */
  function MatchRuneStep(accept: int -> Option<Error>, s: Scan): (r: Reply<Scan, int>)
    ensures r.state.input == s.input
    ensures r.Success? <==> s.pos < |s.input| && accept(Decode(s.input, s.pos).0).None?
    ensures r.Success? ==> r.value == Decode(s.input, s.pos).0 && r.state == ReadRuneStep(s).state
    ensures s.pos == |s.input| ==> r == Failure(EOF, s.(width := []))
    ensures s.pos < |s.input| && r.Failure? ==>
      r.error == accept(Decode(s.input, s.pos).0).value &&
      r.state.pos == s.pos && r.state.width == s.width && r.state.line == ReadRuneStep(s).state.line
  {
    match ReadRuneStep(s)
    case Failure(err, s1) => Failure(err, s1)
    case Success(o, s1) =>
      match accept(o)
      case None => Success(o, s1)
      case Some(err) =>
        assert s1.width[..|s1.width| - 1] == s.width;
        match UnreadStep(s1)
        case Success(_, s2) => Failure(AppendOptional(err, None), s2)
        case Failure(unreadErr, s2) => Failure(AppendOptional(err, Some(unreadErr)), s2)
  }

  /** MatchRune either consumes exactly one rune or leaves the position where it was. */
  lemma MatchRuneMovesOneRune(accept: int -> Option<Error>, s: Scan)
    ensures var r := MatchRuneStep(accept, s);
      r.state.pos == s.pos || (s.pos < |s.input| && r.state.pos == s.pos + Decode(s.input, s.pos).1)
  {
  }

  /** The Scanner object, its fields updated in place by its methods. */
  class Scanner {
    const input: seq<byte>
    var pos: nat
    var width: seq<nat>
    var line: nat

    predicate Valid()
      reads this
    {
      pos <= |input|
    }

    /** The scanner's state as a value. */
    function State(): Scan
      reads this
      requires Valid()
    {
      ScanState(input, pos, width, line)
    }

    /** NewScanner */
    constructor (input: seq<byte>)
      ensures Valid() && State() == NewScan(input)
    {
      this.input := input;
      pos := 0;
      width := [];
      line := 0;
    }

    method ReadRune() returns (r: int, w: int, err: Option<Error>)
      requires Valid()
      modifies this
      ensures Valid()
      ensures var x := ReadRuneStep(old(State()));
        State() == x.state && (err.None? <==> x.Success?) &&
        (x.Success? ==> r == x.value && w == pos - old(pos)) &&
        (x.Failure? ==> r == EOFRune && w == EOFRune && err == Some(EOF))
    {
      if pos >= |input| {
        width := [];
        return EOFRune, EOFRune, Some(EOF);
      }
      var d := Decode(input, pos);
      NewlinesOfRune(input, pos);
      width := width + [d.1];
      pos := pos + d.1;
      if d.0 == Newline {
        line := line + 1;
      }
      return d.0, d.1, None;
    }

    method UnreadRune() returns (err: Option<Error>)
      requires Valid() && CanUnread(State())
      modifies this
      ensures Valid()
      ensures var x := UnreadStep(old(State()));
        State() == x.state && (err.None? <==> x.Success?) && (x.Failure? ==> err == Some(x.error))
    {
      if |width| < 1 {
        return Some(Message(NoRunesToUnread));
      }
      var w := width[|width| - 1];
      width := width[..|width| - 1];
      pos := pos - w;
      return None;
    }

    method MatchString(target: seq<byte>) returns (m: seq<byte>, err: Option<Error>)
      requires Valid()
      modifies this
      ensures Valid()
      ensures var x := MatchStringStep(target, old(State()));
        State() == x.state && (err.None? <==> x.Success?) &&
        (x.Success? ==> m == x.value) && (x.Failure? ==> err == Some(x.error))
    {
      var checkpoint := pos;
      var i := 0;
      while i < |target|
        invariant Valid() && checkpoint == old(pos) <= pos && i <= |target|
        invariant MatchFrom(target, i, checkpoint, State()) == MatchStringStep(target, old(State()))
        decreases |target| - i
      {
        var t := Decode(target, i);
        ghost var before := State();
        var o, _, e := ReadRune();
        ghost var after := State();
        assert after == ReadRuneStep(before).state;
        MatchFromUnfold(target, i, checkpoint, before);
        if e.Some? {
          pos := checkpoint;
          assert State() == Restore(after, checkpoint);
          return [], e;
        }
        if t.0 != o {
          pos := checkpoint;
          assert State() == Restore(after, checkpoint);
          return [], Some(StringMismatch(target, checkpoint));
        }
        i := i + t.1;
      }
      return target, None;
    }

    method MatchRune(accept: int -> Option<Error>) returns (r: int, err: Option<Error>)
      requires Valid()
      modifies this
      ensures Valid()
      ensures var x := MatchRuneStep(accept, old(State()));
        State() == x.state && (err.None? <==> x.Success?) &&
        (x.Success? ==> r == x.value) && (x.Failure? ==> r == EOFRune && err == Some(x.error))
    {
      var o, _, e := ReadRune();
      if e.Some? {
        return EOFRune, e;
      }
      var rejected := accept(o);
      if rejected.Some? {
        assert width[..|width| - 1] == old(width);
        var u := UnreadRune();
        return EOFRune, Some(AppendOptional(rejected.value, u));
      }
      return o, None;
    }

    /** Remaining: the bytes not yet consumed. */
    method Remaining() returns (rest: seq<byte>)
      requires Valid()
      ensures rest == input[pos..] && |rest| == Ahead(State())
    {
      return input[pos..];
    }
  }
}
