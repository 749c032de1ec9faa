/**
 * The avramx Scanner (avramx/scanner.go): a read position over elements
 * pulled lazily from an Iterator and kept in a buffer so that they can be
 * unread and read again.
 */
module AvramxScanner {
  import opened Errors
  import opened Replies
  import opened AvramxIterator

  /**
   * A Scanner's state as a value: the elements its iterator yields from
   * the scanner's creation on (src), the prefix of them pulled so far
   * (buffer), and the read position into the buffer.
   */
  datatype ScanState<T> = ScanState(src: seq<T>, buffer: seq<T>, pos: nat)
  {
    ghost predicate Valid()
    {
      buffer <= src && pos <= |buffer|
    }
  }

  type Scan<T> = s: ScanState<T> | s.Valid() witness ScanState([], [], 0)

  /** NewScanner: nothing pulled yet, position at the start. */
  function NewScan<T>(src: seq<T>): (s: Scan<T>)
    ensures s.src == src && s.buffer == [] && s.pos == 0
  {
    ScanState(src, [], 0)
  }

  /** The number of elements not yet read, pulled or not. */
  function Remaining<T>(s: Scan<T>): nat
  {
    assert |s.buffer| <= |s.src|;
    |s.src| - s.pos
  }

  /** Moving the position back to a checkpoint inside the buffer. */
  function Restore<T>(s: Scan<T>, k: nat): (r: Scan<T>)
    requires k <= |s.buffer|
    ensures r.src == s.src && r.buffer == s.buffer && r.pos == k
  {
    s.(pos := k)
  }

  /** advance: pull one more element from the iterator into the buffer, or EOF when it is exhausted. */
  function AdvanceStep<T>(s: Scan<T>): (r: Reply<Scan<T>, ()>)
    ensures r.Success? <==> |s.buffer| < |s.src|
    ensures r.Success? ==> r.state == s.(buffer := s.src[..|s.buffer| + 1])
    ensures r.Failure? ==> r == Failure(EOF, s)
  {
    if |s.buffer| < |s.src| then
      assert s.src[..|s.buffer| + 1] == s.buffer + [s.src[|s.buffer|]];
      Success((), s.(buffer := s.buffer + [s.src[|s.buffer|]]))
    else Failure(EOF, s)
  }

  /**
   * Read: the element at the position, pulling it from the iterator when
   * the buffer does not reach it yet. It is always the next element of
   * the source, whether it was buffered or freshly pulled.
   */
  function ReadStep<T>(s: Scan<T>): (r: Reply<Scan<T>, T>)
    ensures r.state.src == s.src && s.buffer <= r.state.buffer
    ensures r.Success? <==> s.pos < |s.src|
    ensures r.Success? ==> r.value == s.src[s.pos] && r.state.pos == s.pos + 1
    ensures r.Failure? ==> r == Failure(EOF, s)
    ensures s.pos < |s.buffer| ==> r.state.buffer == s.buffer
    ensures |r.state.buffer| <= |s.buffer| + 1
  {
    if s.pos >= |s.buffer| then
      match AdvanceStep(s)
      case Failure(err, s1) => Failure(err, s1)
      case Success(_, s1) => Success(s1.buffer[s.pos], s1.(pos := s.pos + 1))
    else
      Success(s.buffer[s.pos], s.(pos := s.pos + 1))
  }

  /** Unread: step the position back by one, which fails at the start. */
  function UnreadStep<T>(s: Scan<T>): (r: Reply<Scan<T>, ()>)
    ensures r.Failure? <==> s.pos == 0
    ensures r.Failure? ==> r == Failure(Message(NoElementsToUnread), s)
    ensures r.Success? ==> r.state.pos == s.pos - 1 && r.state.buffer == s.buffer && r.state.src == s.src
  {
    if s.pos <= 0 then Failure(Message(NoElementsToUnread), s)
    else Success((), s.(pos := s.pos - 1))
  }

  /** Unread after a successful Read returns to the state the Read started from, apart from what it pulled. */
  lemma ReadThenUnread<T>(s: Scan<T>)
    requires s.pos < |s.src|
    ensures UnreadStep(ReadStep(s).state).Success?
    ensures UnreadStep(ReadStep(s).state).state == ReadStep(s).state.(pos := s.pos)
  {
  }

  /** Reading again from a restored position yields the same element: the buffer replays what was pulled. */
  lemma {:induction false} ReadReplays<T>(s: Scan<T>, k: nat)
    requires k <= |s.buffer|
    ensures ReadStep(Restore(s, k)).Success? <==> k < |s.src|
    ensures k < |s.buffer| ==> ReadStep(Restore(s, k)) == Success(s.buffer[k], Restore(s, k + 1))
  {
    assert |s.buffer| <= |s.src|;
    if k < |s.buffer| {
      assert s.buffer[k] == s.src[k];
    }
  }

  /** Unread applied n times, stopping at the first failure. */
  function UnreadTimes<T>(s: Scan<T>, n: nat): (r: Reply<Scan<T>, ()>)
    decreases n
  {
    if n == 0 then Success((), s)
    else match UnreadStep(s)
      case Failure(e, s1) => Failure(e, s1)
      case Success(_, s1) => UnreadTimes(s1, n - 1)
  }

  /** Unreading can be repeated all the way back to the first element, and fails only once the position is 0. */
  lemma {:induction false} UnreadBackToStart<T>(s: Scan<T>, n: nat)
    ensures UnreadTimes(s, n).Success? <==> n <= s.pos
    ensures n <= s.pos ==> UnreadTimes(s, n).state == Restore(s, s.pos - n)
    ensures n > s.pos ==> UnreadTimes(s, n) == Failure(Message(NoElementsToUnread), Restore(s, 0))
    decreases n
  {
    if n > 0 && s.pos > 0 {
      UnreadBackToStart(UnreadStep(s).state, n - 1);
    }
  }

  /**
   * The Scanner itself. origin is where the iterator stood when the
   * scanner was created; everything pulled since then is in the buffer.
   */
  class Scanner<T(0)> {
    const input: Iterator<T>
    var pos: nat
    var buffer: seq<T>
    ghost const origin: nat

    ghost predicate Valid()
      reads this, input
    {
      input.Valid() && origin <= input.next &&
      buffer == input.items[origin..input.next] && pos <= |buffer|
    }

    /** The scanner's state as a value. */
    ghost function State(): Scan<T>
      reads this, input
      requires Valid()
    {
      assert buffer <= input.items[origin..];
      ScanState(input.items[origin..], buffer, pos)
    }

    /** NewScanner */
    constructor (input: Iterator<T>)
      requires input.Valid()
      ensures Valid() && this.input == input
      ensures State() == NewScan(old(input.Yields()))
    {
      this.input := input;
      pos := 0;
      buffer := [];
      origin := input.next;
    }

    method Advance() returns (err: Option<Error>)
      requires Valid()
      modifies this, input
      ensures Valid() && pos == old(pos)
      ensures var r := AdvanceStep(old(State()));
        State() == r.state && (err.None? <==> r.Success?) && (err.Some? ==> err.value == r.error)
    {
      var e, ok := input.Next();
      if !ok {
        return Some(EOF);
      }
      buffer := buffer + [e];
      err := None;
    }

    method Read() returns (e: T, err: Option<Error>)
      requires Valid()
      modifies this, input
      ensures Valid()
      ensures var r := ReadStep(old(State()));
        State() == r.state && (err.None? <==> r.Success?) &&
        (r.Success? ==> e == r.value) && (r.Failure? ==> err == Some(r.error))
    {
      if pos >= |buffer| {
        var aerr := Advance();
        if aerr.Some? {
          e := *;
          return e, aerr;
        }
      }
      e := buffer[pos];
      pos := pos + 1;
      err := None;
    }

    method Unread() returns (err: Option<Error>)
      requires Valid()
      modifies this
      ensures Valid()
      ensures var r := UnreadStep(old(State()));
        State() == r.state && (err.None? <==> r.Success?) && (r.Failure? ==> err == Some(r.error))
    {
      if pos <= 0 {
        return Some(Message(NoElementsToUnread));
      }
      pos := pos - 1;
      err := None;
    }
  }
}
