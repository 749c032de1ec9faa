/**
 * The error values both parser engines produce, and the error list that
 * go.uber.org/multierr builds when errors are combined. Each constructor
 * stands for one message shape of the Go code; formatted messages keep
 * their arguments instead of the rendered text.
 */
module Errors {
  import opened Utf8

  datatype Option<+T> = None | Some(value: T)

  /** A Go function result (B, error): the value matters only when the error is nil. */
  type Fallible<B> = (B, Option<Error>)

  datatype Error =
      /** io.EOF: the input is exhausted. */
    | EOF
      /** errors.New(text): a fixed message, the library's own or one a grammar supplies. */
    | Message(text: string)
      /** Name's wrapping: "<name> failed: <cause>". */
    | Named(name: string, cause: Error)
      /** avramx Choice's wrapping: "expected <what>: <causes>", the causes being the accumulated branch errors. */
    | Expected(what: string, causes: Option<Error>)
      /** multierr's combined error, holding the flattened list of the errors combined. */
    | Multi(errors: seq<Error>)
      /** The root scanner's MatchString: "scanner does not contain <target> at position <pos>". */
    | StringMismatch(target: seq<byte>, pos: nat)
      /** The root Finish: "unparsed input: <rest>". */
    | UnparsedInput(rest: seq<byte>)
      /** The root Rune: "expected <want>". */
    | ExpectedRune(want: int)
      /** The root Range: "rune <got> not between <lo> and <hi>". */
    | RuneOutOfRange(got: int, lo: int, hi: int)
      /** The root NotRune: "unexpected <got>". */
    | UnexpectedRune(got: int)
      /** The root Satisfy: "rune <got> does not match required predicate". */
    | PredicateRejected(got: int)
      /** The SQL lexer: "lex failure: unexpected value <got>". */
    | UnexpectedValue(got: int)
      /**
       * Not a Go message: where the model answers this, a recursive
       * grammar built with Fix re-enters itself without consuming input
       * and the Go recursion never returns.
       */
    | LeftRecursion

  const NoElementsToUnread: string := "no elements to unread"
  const NoRunesToUnread: string := "no runes to unread"
  const UnterminatedString: string := "unterminated string"
  const UnfinishedComment: string := "unfinished comment"
  const EmptyTakeTill: string := "input must match at least one rune before predicate fails"

  /** multierr.Errors: the errors a value stands for, flattening a combined error. */
  function Flatten(e: Error): (es: seq<Error>)
    ensures !e.Multi? ==> es == [e]
  {
    if e.Multi? then e.errors else [e]
  }

  /** multierr.Combine of two errors: one error listing the errors of both, in order. */
  function Combine(a: Error, b: Error): (c: Error)
    ensures Flatten(c) == Flatten(a) + Flatten(b)
    ensures a in Flatten(c) || a.Multi?
  {
    Multi(Flatten(a) + Flatten(b))
  }

  /** multierr.Append(acc, e) with a non-nil e: e itself when nothing has accumulated yet. */
  function Append(acc: Option<Error>, e: Error): (c: Error)
    ensures acc.None? ==> c == e
    ensures acc.Some? ==> Flatten(c) == Flatten(acc.value) + Flatten(e)
  {
    if acc.None? then e else Combine(acc.value, e)
  }

  /** multierr.Append(e, other) for a possibly nil other: e is kept unchanged when there is nothing to add. */
  function AppendOptional(e: Error, other: Option<Error>): (c: Error)
    ensures other.None? ==> c == e
    ensures other.Some? ==> Flatten(c) == Flatten(e) + Flatten(other.value)
  {
    if other.None? then e else Combine(e, other.value)
  }

  /** The flattened errors of a list of errors, in order. */
  function FlattenAll(es: seq<Error>): seq<Error>
  {
    if es == [] then [] else FlattenAll(es[..|es| - 1]) + Flatten(es[|es| - 1])
  }

  /** Appending errors one after another accumulates exactly the flattened errors of each, in order. */
  lemma {:induction false} AppendAccumulates(acc: Option<Error>, e: Error, es: seq<Error>)
    requires acc.None? ==> es == []
    requires acc.Some? ==> Flatten(acc.value) == FlattenAll(es)
    ensures Flatten(Append(acc, e)) == FlattenAll(es + [e])
  {
    assert (es + [e])[..|es + [e]| - 1] == es;
    if acc.None? {
      assert FlattenAll(es) == [];
    }
  }
}
