/**
 * The SQL tokenizer (avramx/sql/lexer.go): state functions that drive an
 * avramx Lexer over SQL text. Each state function is a method over the
 * Lexer, proved to have the effect a specification function describes;
 * Tokenize puts the specifications together the way the lexer's run loop
 * chains the state functions.
 */
module SqlLexer {
  import opened Utf8
  import opened Errors
  import opened UnicodeClasses
  import opened AvramxIterator
  import opened AvramxLex

  /** The token types, in the order of their Go constants. */
  datatype Type =
    | Illegal | Whitespace | Comment
    | String | Number
    | Null
    | Add | Sub | Mul | Div
    | Neq | Leq | Geq | Eq | Le | Ge
    | LParen | LBrack | LBrace | Comma | Period
    | RParen | RBrack | RBrace | Semicolon
    | True | False
    | Select | Distinct | From | Group | Order | Having | Limit | By | As
    | Name | QuotedName

  /** The state functions. */
  datatype StateFn =
    | Lex | LexString | LexNumber | LexQuotedName | LexLiteral
    | LexWhitespace | LexLineComment | LexMultiComment

  /**
   * What a state function returns: the next state function, nil, an
   * error, or (Spin) nothing at all because it loops forever.
   */
  datatype Outcome = Then(next: StateFn) | Stop | Fail(err: Error) | Spin

  /** The effect of one state function: its outcome, the type of the token it emitted if any, and where it left pos. */
  datatype Effect = Effect(outcome: Outcome, emit: Option<Type>, end: nat)

  /** The rune Read returns at byte p. */
  function RuneAt(input: seq<byte>, p: nat): int
    requires p <= |input|
  {
    if p < |input| then Decode(input, p).0 else EOFRune
  }

  /** How far Read moves from byte p. */
  function WidthAt(input: seq<byte>, p: nat): (w: nat)
    requires p <= |input|
    ensures p + w <= |input| && (p < |input| ==> w >= 1)
  {
    if p < |input| then Decode(input, p).1 else 0
  }

  /** The one-rune punctuation and operators Lex emits at once. */
  function Single(r: int): Option<Type>
  {
    if r == ',' as int then Some(Comma)
    else if r == '.' as int then Some(Period)
    else if r == '(' as int then Some(LParen)
    else if r == '[' as int then Some(LBrack)
    else if r == '{' as int then Some(LBrace)
    else if r == ')' as int then Some(RParen)
    else if r == ']' as int then Some(RBrack)
    else if r == '}' as int then Some(RBrace)
    else if r == ';' as int then Some(Semicolon)
    else if r == '+' as int then Some(Add)
    else if r == '*' as int then Some(Mul)
    else None
  }

  /** The runes a word continues with. */
  predicate IsWordRune(r: int)
  {
    IsDigit(r) || IsLetter(r) || r == '_' as int
  }

  /** b holds the ASCII bytes of s. */
  predicate Spells(b: seq<byte>, s: string)
  {
    |b| == |s| && forall i :: 0 <= i < |s| ==> b[i] as int == s[i] as int
  }

  /** The words lexLiteral recognises, in upper case, with the types it emits for them. */
  const Keywords: seq<(string, Type)> := [
    ("NULL", Null), ("TRUE", True), ("FALSE", False),
    ("SELECT", Select), ("DISTINCT", Distinct), ("FROM", From), ("GROUP", Group),
    ("ORDER", Order), ("HAVING", Having), ("LIMIT", Limit), ("BY", By), ("AS", As)]

  /** The type of the first entry of table spelled by u, or Name when there is none. */
  function KeywordIn(u: seq<byte>, table: seq<(string, Type)>): (t: Type)
    ensures t == Name || exists i :: 0 <= i < |table| && Spells(u, table[i].0) && table[i].1 == t
    ensures (forall i :: 0 <= i < |table| ==> !Spells(u, table[i].0)) ==> t == Name
  {
    if table == [] then Name
    else if Spells(u, table[0].0) then table[0].1
    else
      var t := KeywordIn(u, table[1..]);
      assert forall i :: 1 <= i < |table| ==> table[i] == table[1..][i - 1];
      t
  }

  /** The type lexLiteral emits for a word: the keyword its upper-case spelling names, or Name. */
  function Keyword(body: seq<byte>): (t: Type)
    ensures t == Name || exists i :: 0 <= i < |Keywords| && Spells(UpperAscii(body), Keywords[i].0) && Keywords[i].1 == t
    ensures (forall i :: 0 <= i < |Keywords| ==> !Spells(UpperAscii(body), Keywords[i].0)) ==> t == Name
  {
    KeywordIn(UpperAscii(body), Keywords)
  }

  /**
   * A word holding a byte at or above 0x80 is a Name: every keyword is
   * ASCII, and upper-casing leaves such a byte in place.
   */
  lemma NonAsciiWordIsName(body: seq<byte>, i: nat)
    requires i < |body| && body[i] >= 0x80
    ensures Keyword(body) == Name
  {
    var u := UpperAscii(body);
    assert u[i] == body[i];
    forall k | 0 <= k < |Keywords|
      ensures !Spells(u, Keywords[k].0)
    {
      var w := Keywords[k].0;
      assert forall j :: 0 <= j < |w| ==> w[j] as int < 0x80;
      if |u| == |w| {
        assert u[i] as int != w[i] as int;
      }
    }
  }

  /** Keywords are case-insensitive: a word and its upper-case spelling get the same type. */
  lemma KeywordIgnoresCase(body: seq<byte>)
    ensures Keyword(body) == Keyword(UpperAscii(body))
  {
    UpperAsciiIdempotent(body);
  }

  /**
   * Where a string literal ends, scanning from byte i inside it: just
   * past the first quote that is not doubled, or None at the end of the
   * input.
   */
  function StringEnd(input: seq<byte>, i: nat): (e: Option<nat>)
    requires i <= |input|
    ensures e.Some? ==> i < e.value <= |input| && input[e.value - 1] == '\'' as int
    decreases |input| - i
  {
    if i == |input| then None
    else if input[i] == '\'' as int then
      if i + 1 < |input| && input[i + 1] == '\'' as int then StringEnd(input, i + 2) else Some(i + 1)
    else StringEnd(input, i + Decode(input, i).1)
  }

  /** Where reading rune by rune from byte i first passes byte c, or None if it never does. */
  function DelimEnd(input: seq<byte>, i: nat, c: byte): (e: Option<nat>)
    requires i <= |input|
    ensures e.Some? ==> i < e.value <= |input| && input[e.value - 1] == c
    decreases |input| - i
  {
    if i == |input| then None
    else if input[i] == c then Some(i + 1)
    else DelimEnd(input, i + Decode(input, i).1, c)
  }

  /** No byte of input from i up to j is c. */
  ghost predicate Absent(input: seq<byte>, i: nat, j: nat, c: byte)
    requires i <= j <= |input|
  {
    forall k :: i <= k < j ==> input[k] != c
  }

  /** Reading rune by rune meets every ASCII byte: DelimEnd finds the first c, and None means there is none. */
  lemma {:induction false} DelimEndFindsFirst(input: seq<byte>, i: nat, c: byte)
    requires i <= |input| && c < 0x80
    ensures DelimEnd(input, i, c).None? <==> Absent(input, i, |input|, c)
    ensures DelimEnd(input, i, c).Some? ==> Absent(input, i, DelimEnd(input, i, c).value - 1, c)
    decreases |input| - i
  {
    if i < |input| && input[i] != c {
      var w := Decode(input, i).1;
      DelimEndFindsFirst(input, i + w, c);
      forall k | i < k < i + w ensures input[k] != c {
        assert IsContinuation(input[k]);
      }
    }
  }

  /** One rune further towards the ASCII byte c. */
  lemma DelimEndStep(input: seq<byte>, q: nat, c: byte)
    requires q < |input| && c < 0x80
    ensures Decode(input, q).0 == c as int <==> input[q] == c
    ensures input[q] == c ==> DelimEnd(input, q, c) == Some(q + 1) && Decode(input, q).1 == 1
    ensures input[q] != c ==> DelimEnd(input, q, c) == DelimEnd(input, q + Decode(input, q).1, c)
  {
  }

  /** Where a block comment ends, scanning from byte i inside it: just past the first "*" + "/", or None. */
  function CommentEnd(input: seq<byte>, i: nat): (e: Option<nat>)
    requires i <= |input|
    ensures e.Some? ==> i + 2 <= e.value <= |input| && input[e.value - 2] == '*' as int && input[e.value - 1] == '/' as int
    decreases |input| - i
  {
    if i == |input| then None
    else if input[i] == '*' as int && i + 1 < |input| && input[i + 1] == '/' as int then Some(i + 2)
    else CommentEnd(input, i + Decode(input, i).1)
  }

  /** A rune other than a quote inside a string literal does not end it. */
  lemma StringEndSkips(input: seq<byte>, q: nat, next: nat)
    requires q < |input| && Decode(input, q).0 != '\'' as int && next == q + Decode(input, q).1
    ensures StringEnd(input, q) == StringEnd(input, next)
  {
  }

  /** At a quote a string literal ends, unless the quote is doubled, standing for one quote. */
  lemma StringEndAtQuote(input: seq<byte>, q: nat)
    requires q < |input| && input[q] == '\'' as int
    ensures q + 1 < |input| && input[q + 1] == '\'' as int ==> StringEnd(input, q) == StringEnd(input, q + 2)
    ensures !(q + 1 < |input| && input[q + 1] == '\'' as int) ==> StringEnd(input, q) == Some(q + 1)
  {
  }

  /** A rune inside a block comment that does not start the closing "*" + "/" does not end it. */
  lemma CommentEndSkips(input: seq<byte>, q: nat, next: nat)
    requires q < |input| && next == q + Decode(input, q).1
    requires !(input[q] == '*' as int && q + 1 < |input| && input[q + 1] == '/' as int)
    ensures CommentEnd(input, q) == CommentEnd(input, next)
  {
  }

  /** What Lex does once it has read '<' and the lexer is at q: "<>", "<=" or '<' alone. */
  function LessSpec(input: seq<byte>, q: nat): (e: Effect)
    requires q <= |input|
    ensures e.outcome == Then(Lex) && e.emit.Some? && q <= e.end <= |input|
  {
    var n := RuneAt(input, q);
    if n == '>' as int then Effect(Then(Lex), Some(Neq), q + 1)
    else if n == '=' as int then Effect(Then(Lex), Some(Leq), q + 1)
    else Effect(Then(Lex), Some(Le), q)
  }

  /** What Lex does once it has read '>': ">=" or '>' alone. */
  function GreaterSpec(input: seq<byte>, q: nat): (e: Effect)
    requires q <= |input|
    ensures e.outcome == Then(Lex) && e.emit.Some? && q <= e.end <= |input|
  {
    if RuneAt(input, q) == '=' as int then Effect(Then(Lex), Some(Geq), q + 1)
    else Effect(Then(Lex), Some(Ge), q)
  }

  /** What Lex does once it has read '!': "!=", or an error naming the rune after the '!'. */
  function BangSpec(input: seq<byte>, q: nat): (e: Effect)
    requires q <= |input|
    ensures q <= e.end <= |input| && (e.emit.Some? <==> e.outcome == Then(Lex))
    ensures e.outcome.Then? || e.outcome.Fail?
  {
    var n := RuneAt(input, q);
    if n != '=' as int then Effect(Fail(UnexpectedValue(n)), None, q + WidthAt(input, q))
    else Effect(Then(Lex), Some(Neq), q + 1)
  }

  /** What Lex does once it has read '-': a line comment after "--", otherwise Sub. */
  function DashSpec(input: seq<byte>, q: nat): (e: Effect)
    requires q <= |input|
    ensures q <= e.end <= |input| && e.outcome.Then? && (e.emit.Some? <==> e.outcome == Then(Lex))
  {
    if RuneAt(input, q) == '-' as int then Effect(Then(LexLineComment), None, q)
    else Effect(Then(Lex), Some(Sub), q)
  }

  /** What Lex does once it has read '/': a line comment after "//", a block comment after "/" + "*", otherwise Div. */
  function SlashSpec(input: seq<byte>, q: nat): (e: Effect)
    requires q <= |input|
    ensures q <= e.end <= |input| && e.outcome.Then? && (e.emit.Some? <==> e.outcome == Then(Lex))
  {
    var n := RuneAt(input, q);
    if n == '/' as int then Effect(Then(LexLineComment), None, q)
    else if n == '*' as int then Effect(Then(LexMultiComment), None, q + 1)
    else Effect(Then(Lex), Some(Div), q)
  }

  /** What Lex does when the lexer is at byte p. */
  function LexSpec(input: seq<byte>, p: nat): (e: Effect)
    requires p <= |input|
    ensures p <= e.end <= |input|
    ensures e.outcome.Then? ==> e.end > p
    ensures e.emit.Some? ==> e.outcome == Then(Lex)
    ensures e.outcome == Then(Lex) ==> e.emit.Some?
  {
    var r := RuneAt(input, p);
    if r == EOFRune then Effect(Stop, None, p)
    else RuneSpec(input, r, p + WidthAt(input, p))
  }

  /** What Lex does once it has read the rune r and the lexer is at q. */
  function RuneSpec(input: seq<byte>, r: int, q: nat): (e: Effect)
    requires q <= |input|
    ensures q <= e.end <= |input|
    ensures e.emit.Some? ==> e.outcome == Then(Lex)
    ensures e.outcome == Then(Lex) ==> e.emit.Some?
  {
    if Single(r).Some? then Effect(Then(Lex), Single(r), q)
    else if r == '\'' as int then Effect(Then(LexString), None, q)
    else if IsDigit(r) then Effect(Then(LexNumber), None, q)
    else if r == '"' as int then Effect(Then(LexQuotedName), None, q)
    else if IsOperatorStart(r) then OperatorSpec(input, r, q)
    else if IsSpace(r) then Effect(Then(LexWhitespace), None, q)
    else if IsLetter(r) || r == '_' as int then Effect(Then(LexLiteral), None, q)
    else Effect(Fail(UnexpectedValue(r)), None, q)
  }

  /** The runes that may start a token of two runes. */
  predicate IsOperatorStart(r: int)
  {
    r == '<' as int || r == '>' as int || r == '!' as int || r == '-' as int || r == '/' as int
  }

  /** What Lex does once it has read one of the runes that may start a token of two. */
  function OperatorSpec(input: seq<byte>, r: int, q: nat): (e: Effect)
    requires q <= |input| && IsOperatorStart(r)
    ensures q <= e.end <= |input| && (e.emit.Some? <==> e.outcome == Then(Lex))
  {
    if r == '<' as int then LessSpec(input, q)
    else if r == '>' as int then GreaterSpec(input, q)
    else if r == '!' as int then BangSpec(input, q)
    else if r == '-' as int then DashSpec(input, q)
    else SlashSpec(input, q)
  }

  /**
   * What every state function other than Lex does: it ends at or after
   * p, and it either emits one token and hands back to Lex, or stops
   * without emitting.
   */
  predicate HandsBack(input: seq<byte>, p: nat, e: Effect)
  {
    p <= e.end <= |input| && (e.outcome.Then? ==> e.outcome.next.Lex?) && (e.emit.Some? <==> e.outcome == Then(Lex))
  }

  /** lexString from p: the literal up to its closing quote, or "unterminated string". */
  function StringSpec(input: seq<byte>, p: nat): (e: Effect)
    requires p <= |input|
    ensures HandsBack(input, p, e)
  {
    match StringEnd(input, p)
    case None => Effect(Fail(Message(UnterminatedString)), None, |input|)
    case Some(end) => Effect(Then(Lex), Some(String), end)
  }

  /** lexNumber from p: the run of digits. */
  function NumberSpec(input: seq<byte>, p: nat): (e: Effect)
    requires p <= |input|
    ensures HandsBack(input, p, e)
  {
    Effect(Then(Lex), Some(Number), RunEnd(input, p, IsDigit))
  }

  /** lexQuotedName from p: the name up to its closing double quote; no end without one. */
  function QuotedNameSpec(input: seq<byte>, p: nat): (e: Effect)
    requires p <= |input|
    ensures HandsBack(input, p, e)
  {
    match DelimEnd(input, p, '"' as int)
    case None => Effect(Spin, None, |input|)
    case Some(end) => Effect(Then(Lex), Some(QuotedName), end)
  }

  /** lexLiteral from p, the word having begun at start: the run of word runes, typed by the keyword it spells. */
  function LiteralSpec(input: seq<byte>, start: nat, p: nat): (e: Effect)
    requires start <= p <= |input|
    ensures HandsBack(input, p, e)
  {
    var end := RunEnd(input, p, IsWordRune);
    Effect(Then(Lex), Some(Keyword(input[start..end])), end)
  }

  /** lexWhitespace from p: the run of spaces. */
  function WhitespaceSpec(input: seq<byte>, p: nat): (e: Effect)
    requires p <= |input|
    ensures HandsBack(input, p, e)
  {
    Effect(Then(Lex), Some(Whitespace), RunEnd(input, p, IsSpace))
  }

  /** lexLineComment from p: the comment up to and including the next '\n'; no end without one. */
  function LineCommentSpec(input: seq<byte>, p: nat): (e: Effect)
    requires p <= |input|
    ensures HandsBack(input, p, e)
  {
    match DelimEnd(input, p, Newline)
    case None => Effect(Spin, None, |input|)
    case Some(end) => Effect(Then(Lex), Some(Comment), end)
  }

  /** lexMultiComment from p: the comment up to and including its closing "*" + "/", or "unfinished comment". */
  function MultiCommentSpec(input: seq<byte>, p: nat): (e: Effect)
    requires p <= |input|
    ensures HandsBack(input, p, e)
  {
    match CommentEnd(input, p)
    case None => Effect(Fail(Message(UnfinishedComment)), None, |input|)
    case Some(end) => Effect(Then(Lex), Some(Comment), end)
  }

  /** What the state function fn does when the token began at start and the lexer is at p. */
  function StepSpec(input: seq<byte>, fn: StateFn, start: nat, p: nat): (e: Effect)
    requires start <= p <= |input|
    ensures p <= e.end <= |input|
    ensures fn.Lex? && e.outcome.Then? ==> e.end > p
    ensures !fn.Lex? ==> HandsBack(input, p, e)
    ensures e.emit.Some? <==> e.outcome == Then(Lex)
  {
    match fn
    case Lex => LexSpec(input, p)
    case LexString => StringSpec(input, p)
    case LexNumber => NumberSpec(input, p)
    case LexQuotedName => QuotedNameSpec(input, p)
    case LexLiteral => LiteralSpec(input, start, p)
    case LexWhitespace => WhitespaceSpec(input, p)
    case LexLineComment => LineCommentSpec(input, p)
    case LexMultiComment => MultiCommentSpec(input, p)
  }

  /** The token Emit makes of the text from start to end. */
  function MakeToken(input: seq<byte>, t: Type, start: nat, end: nat): Token<Type>
    requires start <= end <= |input|
  {
    Token(t, input[start..end], 1 + Newlines(input[..end]), start, end - start)
  }

  /** How the lexer's run ends: every state function returned, one failed, or one never returned. */
  datatype Ending = Done | Failed(err: Error) | Hung

  datatype Lexed = Lexed(tokens: seq<Token<Type>>, ending: Ending)

  /**
   * The tokens the run loop emits and how it ends, starting with state
   * function fn: the reference the lexer's run loop is proved against.
   * Every token lies within the input, after the start of the run.
   */
  function Tokenize(input: seq<byte>, fn: StateFn, start: nat, p: nat): (r: Lexed)
    requires start <= p <= |input|
    ensures forall t :: t in r.tokens ==> start <= t.start && t.start + t.span <= |input|
    decreases |input| - p, if fn.Lex? then 0 else 1
  {
    var e := StepSpec(input, fn, start, p);
    var emitted := if e.emit.Some? then [MakeToken(input, e.emit.value, start, e.end)] else [];
    match e.outcome
    case Stop => Lexed(emitted, Done)
    case Fail(err) => Lexed(emitted, Failed(err))
    case Spin => Lexed(emitted, Hung)
    case Then(next) =>
      var rest := Tokenize(input, next, if e.emit.Some? then e.end else start, e.end);
      Lexed(emitted + rest.tokens, rest.ending)
  }

  /** One step of the run loop: the tokens of the state function fn, then those of the rest of the run. */
  lemma TokenizeUnfold(input: seq<byte>, fn: StateFn, start: nat, p: nat)
    requires start <= p <= |input|
    ensures var e := StepSpec(input, fn, start, p);
      var emitted := if e.emit.Some? then [MakeToken(input, e.emit.value, start, e.end)] else [];
      var r := Tokenize(input, fn, start, p);
      (e.outcome.Stop? ==> r == Lexed(emitted, Done)) &&
      (e.outcome.Fail? ==> r == Lexed(emitted, Failed(e.outcome.err))) &&
      (e.outcome.Spin? ==> r == Lexed(emitted, Hung)) &&
      (e.outcome.Then? ==>
        var rest := Tokenize(input, e.outcome.next, if e.emit.Some? then e.end else start, e.end);
        r == Lexed(emitted + rest.tokens, rest.ending))
  {
  }

  /** The bodies of tokens, joined. */
  function Bodies(tokens: seq<Token<Type>>): seq<byte>
  {
    if tokens == [] then [] else tokens[0].body + Bodies(tokens[1..])
  }

  lemma {:induction false} BodiesAppend(a: seq<Token<Type>>, b: seq<Token<Type>>)
    ensures Bodies(a + b) == Bodies(a) + Bodies(b)
    decreases |a|
  {
    if a == [] {
      assert a + b == b;
    } else {
      assert (a + b)[1..] == a[1..] + b;
      BodiesAppend(a[1..], b);
    }
  }

  /** The body of the one token Emit makes of start to end is that slice of the input. */
  lemma EmittedBody(input: seq<byte>, t: Type, start: nat, end: nat)
    requires start <= end <= |input|
    ensures Bodies([MakeToken(input, t, start, end)]) == input[start..end]
  {
    assert Bodies([MakeToken(input, t, start, end)]) == input[start..end] + Bodies([]);
  }

  /** Tokens covering start to mid, followed by tokens covering a prefix of the rest, cover a prefix from start. */
  lemma CoverJoin(input: seq<byte>, start: nat, mid: nat, emitted: seq<Token<Type>>, rest: seq<Token<Type>>)
    requires start <= mid <= |input|
    requires Bodies(emitted) == input[start..mid] && Bodies(rest) <= input[mid..]
    ensures Bodies(emitted + rest) <= input[start..]
    ensures Bodies(rest) == input[mid..] ==> Bodies(emitted + rest) == input[start..]
  {
    BodiesAppend(emitted, rest);
    PrefixJoin(input[start..mid], Bodies(rest), input[mid..]);
    assert input[start..mid] + input[mid..] == input[start..];
  }

  /** Putting the same sequence in front of a prefix and of the sequence it prefixes keeps it a prefix. */
  lemma PrefixJoin<T>(a: seq<T>, b: seq<T>, c: seq<T>)
    requires b <= c
    ensures a + b <= a + c
  {
    assert (a + c)[..|a + b|] == a + c[..|b|];
  }

  /**
   * The SQL lexer drops nothing: the token bodies, in order, are the
   * input from where Lex first ran, all of it when the run ends normally.
   */
  lemma {:induction false} TokensCoverInput(input: seq<byte>, fn: StateFn, start: nat, p: nat)
    requires start <= p <= |input|
    requires fn.Lex? ==> start == p
    ensures var r := Tokenize(input, fn, start, p);
      Bodies(r.tokens) <= input[start..] && (r.ending.Done? ==> Bodies(r.tokens) == input[start..])
    decreases |input| - p, if fn.Lex? then 0 else 1
  {
    var e := StepSpec(input, fn, start, p);
    var start' := if e.emit.Some? then e.end else start;
    var emitted := if e.emit.Some? then [MakeToken(input, e.emit.value, start, e.end)] else [];
    if e.emit.Some? {
      EmittedBody(input, e.emit.value, start, e.end);
    }
    TokenizeUnfold(input, fn, start, p);
    if e.outcome.Then? {
      TokensCoverInput(input, e.outcome.next, start', e.end);
      CoverJoin(input, start, start', emitted, Tokenize(input, e.outcome.next, start', e.end).tokens);
    } else {
      CoverJoin(input, start, start', emitted, []);
      assert emitted + [] == emitted;
    }
  }

  /** Each token of ts is the input between its start and start + span, on the line where it ends. */
  ghost predicate AreSlices(input: seq<byte>, ts: seq<Token<Type>>)
  {
    forall t :: t in ts ==>
      t.start + t.span <= |input| && t.body == input[t.start..t.start + t.span] && t.line == 1 + Newlines(input[..t.start + t.span])
  }

  /** Each token Tokenize emits is the input between its start and start + span. */
  lemma {:induction false} TokensAreSlices(input: seq<byte>, fn: StateFn, start: nat, p: nat)
    requires start <= p <= |input|
    ensures AreSlices(input, Tokenize(input, fn, start, p).tokens)
    decreases |input| - p, if fn.Lex? then 0 else 1
  {
    var e := StepSpec(input, fn, start, p);
    var emitted := if e.emit.Some? then [MakeToken(input, e.emit.value, start, e.end)] else [];
    if e.emit.Some? {
      EmittedSlice(input, e.emit.value, start, e.end);
    }
    TokenizeUnfold(input, fn, start, p);
    if e.outcome.Then? {
      var start' := if e.emit.Some? then e.end else start;
      TokensAreSlices(input, e.outcome.next, start', e.end);
      SlicesJoin(input, emitted, Tokenize(input, e.outcome.next, start', e.end).tokens);
    }
  }

  /** The one token Emit makes of start to end is a slice of the input. */
  lemma EmittedSlice(input: seq<byte>, t: Type, start: nat, end: nat)
    requires start <= end <= |input|
    ensures AreSlices(input, [MakeToken(input, t, start, end)])
  {
  }

  /** Two runs of slices, one after the other, are slices. */
  lemma SlicesJoin(input: seq<byte>, a: seq<Token<Type>>, b: seq<Token<Type>>)
    requires AreSlices(input, a) && AreSlices(input, b)
    ensures AreSlices(input, a + b)
  {
    assert forall t :: t in a + b ==> t in a || t in b;
  }

  /** The effect a state function had on the lexer, compared with what the specification says. */
  ghost predicate Did(l: Lexer<Type>, e: Effect, start0: nat, tokens0: seq<Token<Type>>, err0: Option<Error>)
    reads l
  {
    l.pos == e.end && l.err == err0 &&
    (e.emit.None? ==> l.start == start0 && l.tokens == tokens0) &&
    (e.emit.Some? ==>
       start0 <= e.end <= |l.input| && l.start == e.end &&
       l.tokens == tokens0 + [MakeToken(l.input, e.emit.value, start0, e.end)])
  }

  /** Emit, stated as the effect of a state function that hands back to Lex. */
  method EmitAs(l: Lexer<Type>, t: Type)
    requires l.Valid()
    modifies l
    ensures l.Valid()
    ensures Did(l, Effect(Then(Lex), Some(t), old(l.pos)), old(l.start), old(l.tokens), old(l.err))
  {
    l.Emit(t);
  }

  /** r is the rune Read returned at q, leaving the lexer at pos with width history width. */
  ghost predicate LastRead(input: seq<byte>, q: nat, r: int, pos: nat, width: Widths)
    requires q <= |input|
  {
    (r == EOFRune ==> q == |input| && pos == q && width == Nil) &&
    (r != EOFRune ==>
       q < |input| && r == Decode(input, q).0 && pos == q + Decode(input, q).1 &&
       width.Widths? && |width.ws| > 0 && width.ws[|width.ws| - 1] == Decode(input, q).1)
  }

  /**
   * The loop "for f(l.Read()) {}" followed by l.Backup(): it leaves the
   * lexer at the end of the run of runes satisfying f.
   */
  method ReadRun(l: Lexer<Type>, f: int -> bool)
    requires l.Valid() && !f(EOFRune)
    modifies l
    ensures l.Valid()
    ensures l.pos == RunEnd(l.input, old(l.pos), f)
    ensures l.start == old(l.start) && l.tokens == old(l.tokens) && l.err == old(l.err)
  {
    ghost var input, p := l.input, l.pos;
    ghost var q := l.pos;
    var r := l.Read();
    while f(r)
      invariant l.Valid()
      invariant l.start == old(l.start) && l.tokens == old(l.tokens) && l.err == old(l.err)
      invariant l.start <= q <= |input| && LastRead(input, q, r, l.pos, l.width)
      invariant RunEnd(input, q, f) == RunEnd(input, p, f)
      decreases |input| - q
    {
      q, r := ReadOn(l, f, p, q, r);
    }
    BackUpToRunEnd(l, f, p, q, r);
  }

  /** The Backup after ReadRun's loop: the rune r at q ended the run, so step back onto it. */
  method BackUpToRunEnd(l: Lexer<Type>, f: int -> bool, ghost p: nat, ghost q: nat, r: int)
    requires l.Valid() && !f(r)
    requires l.start <= q <= |l.input| && p <= |l.input| && LastRead(l.input, q, r, l.pos, l.width)
    requires RunEnd(l.input, q, f) == RunEnd(l.input, p, f)
    modifies l
    ensures l.Valid()
    ensures l.pos == RunEnd(l.input, p, f)
    ensures l.start == old(l.start) && l.tokens == old(l.tokens) && l.err == old(l.err)
  {
    RunEndStep(l.input, q, f);
    l.Backup();
  }

  /** One round of ReadRun's loop: the rune r at q satisfied f, so read the next one. */
  method ReadOn(l: Lexer<Type>, f: int -> bool, ghost p: nat, ghost q: nat, r: int) returns (ghost q': nat, r': int)
    requires l.Valid() && !f(EOFRune) && f(r)
    requires l.start <= q <= |l.input| && p <= |l.input| && LastRead(l.input, q, r, l.pos, l.width)
    requires RunEnd(l.input, q, f) == RunEnd(l.input, p, f)
    modifies l
    ensures l.Valid()
    ensures l.start == old(l.start) && l.tokens == old(l.tokens) && l.err == old(l.err)
    ensures q < q' <= |l.input| && LastRead(l.input, q', r', l.pos, l.width)
    ensures RunEnd(l.input, q', f) == RunEnd(l.input, p, f)
  {
    assert r != EOFRune;
    assert q < |l.input| && r == Decode(l.input, q).0 && l.pos == q + Decode(l.input, q).1;
    RunEndStep(l.input, q, f);
    assert RunEnd(l.input, l.pos, f) == RunEnd(l.input, p, f);
    q' := l.pos;
    r' := l.Read();
  }

  /** lexNumber: the rest of a run of digits, emitted as a Number. */
  method LexNumberFn(l: Lexer<Type>) returns (out: Outcome)
    requires l.Valid()
    modifies l
    ensures l.Valid()
    ensures var e := NumberSpec(l.input, old(l.pos));
      Did(l, e, old(l.start), old(l.tokens), old(l.err)) && out == e.outcome
  {
    ReadRun(l, IsDigit);
    EmitAs(l, Number);
    return Then(Lex);
  }

  /** lexWhitespace: the rest of a run of space runes, emitted as Whitespace. */
  method LexWhitespaceFn(l: Lexer<Type>) returns (out: Outcome)
    requires l.Valid()
    modifies l
    ensures l.Valid()
    ensures var e := WhitespaceSpec(l.input, old(l.pos));
      Did(l, e, old(l.start), old(l.tokens), old(l.err)) && out == e.outcome
  {
    ReadRun(l, IsSpace);
    EmitAs(l, Whitespace);
    return Then(Lex);
  }

  /** lexLiteral: the rest of a word, emitted as the keyword it spells or as a Name. */
  method LexLiteralFn(l: Lexer<Type>) returns (out: Outcome)
    requires l.Valid()
    modifies l
    ensures l.Valid()
    ensures var e := LiteralSpec(l.input, old(l.start), old(l.pos));
      Did(l, e, old(l.start), old(l.tokens), old(l.err)) && out == e.outcome
  {
    ReadRun(l, IsWordRune);
    var t := Keyword(l.Body());
    EmitAs(l, t);
    return Then(Lex);
  }

  /** Peek at the next rune and read it too when it is the ASCII byte c. */
  method Follows(l: Lexer<Type>, c: byte) returns (found: bool)
    requires l.Valid() && c < 0x80
    modifies l
    ensures l.Valid()
    ensures l.start == old(l.start) && l.tokens == old(l.tokens) && l.err == old(l.err)
    ensures found <==> old(l.pos) < |l.input| && l.input[old(l.pos)] == c
    ensures l.pos == old(l.pos) + (if found then 1 else 0)
  {
    var n := l.Peek();
    found := n == c as int;
    if found {
      n := l.Read();
    }
  }

  /** What reading one more rune inside a string literal or a block comment found. */
  datatype Inside = Continues | Closes | RunsOut

  /**
   * One round of lexString's loop: read a rune; after a quote, peek at
   * the next one and read it too when it doubles the quote.
   */
  method StringRune(l: Lexer<Type>) returns (step: Inside)
    requires l.Valid()
    modifies l
    ensures l.Valid()
    ensures l.start == old(l.start) && l.tokens == old(l.tokens) && l.err == old(l.err)
    ensures step == RunsOut ==> old(l.pos) == l.pos == |l.input| && StringEnd(l.input, old(l.pos)).None?
    ensures step == Closes ==> StringEnd(l.input, old(l.pos)) == Some(l.pos)
    ensures step == Continues ==> l.pos > old(l.pos) && StringEnd(l.input, l.pos) == StringEnd(l.input, old(l.pos))
  {
    ghost var input, q := l.input, l.pos;
    var r := l.Read();
    if r == EOFRune {
      return RunsOut;
    }
    ghost var next := l.pos;
    assert q < |input| && r == Decode(input, q).0 && next == q + Decode(input, q).1;
    if r != '\'' as int {
      StringEndSkips(input, q, next);
      return Continues;
    }
    assert input[q] == '\'' as int && next == q + 1;
    StringEndAtQuote(input, q);
    var doubled := Follows(l, '\'' as byte);
    if doubled {
      return Continues;
    }
    return Closes;
  }

  /** lexString: up to the closing quote, a doubled quote standing for a quote; "unterminated string" at the end of the input. */
  method LexStringFn(l: Lexer<Type>) returns (out: Outcome)
    requires l.Valid()
    modifies l
    ensures l.Valid()
    ensures var e := StringSpec(l.input, old(l.pos));
      Did(l, e, old(l.start), old(l.tokens), old(l.err)) && out == e.outcome
  {
    ghost var target := StringEnd(l.input, l.pos);
    while true
      invariant l.Valid()
      invariant l.start == old(l.start) && l.tokens == old(l.tokens) && l.err == old(l.err)
      invariant StringEnd(l.input, l.pos) == target
      decreases |l.input| - l.pos
    {
      var step := StringRune(l);
      if step == RunsOut {
        return Fail(Message(UnterminatedString));
      } else if step == Closes {
        EmitAs(l, String);
        return Then(Lex);
      }
    }
  }

  /**
   * The loop "for l.Read() != c {}": it stops just past the first c. At
   * the end of the input Read returns EOF forever and the Go loop never
   * ends; the model returns false there instead.
   */
  method ReadThrough(l: Lexer<Type>, c: byte) returns (found: bool)
    requires l.Valid() && c < 0x80
    modifies l
    ensures l.Valid()
    ensures l.start == old(l.start) && l.tokens == old(l.tokens) && l.err == old(l.err)
    ensures found <==> DelimEnd(l.input, old(l.pos), c).Some?
    ensures found ==> l.pos == DelimEnd(l.input, old(l.pos), c).value
    ensures !found ==> l.pos == |l.input|
  {
    ghost var input := l.input;
    while true
      invariant l.Valid()
      invariant l.start == old(l.start) && l.tokens == old(l.tokens) && l.err == old(l.err)
      invariant DelimEnd(input, l.pos, c) == DelimEnd(input, old(l.pos), c)
      decreases |input| - l.pos
    {
      var r := ReadToward(l, c);
      if r == EOFRune {
        return false;
      }
      if r == c as int {
        return true;
      }
    }
  }

  /** One round of "for l.Read() != c {}": EOF at the end of the input, otherwise one rune nearer the first c. */
  method ReadToward(l: Lexer<Type>, c: byte) returns (r: int)
    requires l.Valid() && c < 0x80
    modifies l
    ensures l.Valid()
    ensures l.start == old(l.start) && l.tokens == old(l.tokens) && l.err == old(l.err)
    ensures r == EOFRune ==> l.pos == old(l.pos) == |l.input| && DelimEnd(l.input, old(l.pos), c).None?
    ensures r != EOFRune ==> old(l.pos) < l.pos <= |l.input|
    ensures r == c as int ==> DelimEnd(l.input, old(l.pos), c) == Some(l.pos)
    ensures r != c as int && r != EOFRune ==> DelimEnd(l.input, l.pos, c) == DelimEnd(l.input, old(l.pos), c)
  {
    ghost var q := l.pos;
    r := l.Read();
    if r != EOFRune {
      assert q < |l.input| && r == Decode(l.input, q).0 && l.pos == q + Decode(l.input, q).1;
      DelimEndStep(l.input, q, c);
    }
  }

  /** lexQuotedName: up to the closing double quote; it never returns when there is none. */
  method LexQuotedNameFn(l: Lexer<Type>) returns (out: Outcome)
    requires l.Valid()
    modifies l
    ensures l.Valid()
    ensures var e := QuotedNameSpec(l.input, old(l.pos));
      Did(l, e, old(l.start), old(l.tokens), old(l.err)) && out == e.outcome
  {
    var found := ReadThrough(l, '"' as int);
    if !found {
      return Spin;
    }
    EmitAs(l, QuotedName);
    return Then(Lex);
  }

  /** lexLineComment as written: up to and including the next '\n'; it never returns when no '\n' follows. */
  method LexLineCommentFn(l: Lexer<Type>) returns (out: Outcome)
    requires l.Valid()
    modifies l
    ensures l.Valid()
    ensures var e := LineCommentSpec(l.input, old(l.pos));
      Did(l, e, old(l.start), old(l.tokens), old(l.err)) && out == e.outcome
  {
    var found := ReadThrough(l, Newline);
    if !found {
      return Spin;
    }
    EmitAs(l, Comment);
    return Then(Lex);
  }

  /** What a line comment that may end the input does: it ends at the next '\n' or at the end of the input. */
  function LineCommentToEndSpec(input: seq<byte>, p: nat): (e: Effect)
    requires p <= |input|
  {
    match DelimEnd(input, p, Newline)
    case None => Effect(Then(Lex), Some(Comment), |input|)
    case Some(e) => Effect(Then(Lex), Some(Comment), e)
  }

  /** lexLineComment as intended: a comment on the last line ends with the input. */
  method LexLineCommentToEnd(l: Lexer<Type>) returns (out: Outcome)
    requires l.Valid()
    modifies l
    ensures l.Valid()
    ensures var e := LineCommentToEndSpec(l.input, old(l.pos));
      Did(l, e, old(l.start), old(l.tokens), old(l.err)) && out == e.outcome
  {
    var _ := ReadThrough(l, Newline);
    EmitAs(l, Comment);
    return Then(Lex);
  }

  /**
   * The two line comments agree whenever a '\n' follows; otherwise the
   * code as written never returns, while the intended one emits the
   * comment and hands back to Lex, which then stops.
   */
  lemma LineCommentToEndAgrees(input: seq<byte>, p: nat)
    requires p <= |input|
    ensures !Absent(input, p, |input|, Newline) ==> LineCommentToEndSpec(input, p) == LineCommentSpec(input, p)
    ensures Absent(input, p, |input|, Newline) ==>
      LineCommentSpec(input, p).outcome == Spin &&
      LineCommentToEndSpec(input, p) == Effect(Then(Lex), Some(Comment), |input|) &&
      LexSpec(input, |input|).outcome == Stop
  {
    DelimEndFindsFirst(input, p, Newline);
  }

  /** The input "-- note": a line comment with no '\n' after it. */
  const TrailingComment: seq<byte> := [0x2D, 0x2D, 0x20, 0x6E, 0x6F, 0x74, 0x65]

  /** On "-- note" the run as written never ends; the intended comment lexer yields one Comment token. */
  lemma TrailingCommentHangs()
    ensures Tokenize(TrailingComment, Lex, 0, 0).ending == Hung
    ensures Tokenize(TrailingComment, Lex, 0, 0).tokens == []
    ensures LineCommentToEndSpec(TrailingComment, 1) == Effect(Then(Lex), Some(Comment), 7)
  {
    var input := TrailingComment;
    assert RuneAt(input, 0) == '-' as int && WidthAt(input, 0) == 1 && RuneAt(input, 1) == '-' as int;
    assert OperatorSpec(input, '-' as int, 1) == DashSpec(input, 1) == Effect(Then(LexLineComment), None, 1);
    assert RuneSpec(input, '-' as int, 1) == OperatorSpec(input, '-' as int, 1);
    assert StepSpec(input, Lex, 0, 0) == Effect(Then(LexLineComment), None, 1);
    TokenizeUnfold(input, Lex, 0, 0);
    DelimEndFindsFirst(input, 1, Newline);
    assert Absent(input, 1, 7, Newline);
    assert StepSpec(input, LexLineComment, 0, 1) == Effect(Spin, None, 7);
    TokenizeUnfold(input, LexLineComment, 0, 1);
  }

  /** One round of lexMultiComment's loop: read a rune; after a '*', peek at the next one and read it too when it is '/'. */
  method CommentRune(l: Lexer<Type>) returns (step: Inside)
    requires l.Valid()
    modifies l
    ensures l.Valid()
    ensures l.start == old(l.start) && l.tokens == old(l.tokens) && l.err == old(l.err)
    ensures step == RunsOut ==> old(l.pos) == l.pos == |l.input| && CommentEnd(l.input, old(l.pos)).None?
    ensures step == Closes ==> CommentEnd(l.input, old(l.pos)) == Some(l.pos)
    ensures step == Continues ==> l.pos > old(l.pos) && CommentEnd(l.input, l.pos) == CommentEnd(l.input, old(l.pos))
  {
    ghost var input, q := l.input, l.pos;
    var r := l.Read();
    if r == EOFRune {
      return RunsOut;
    }
    ghost var next := l.pos;
    assert q < |input| && r == Decode(input, q).0 && next == q + Decode(input, q).1;
    if r == '*' as int {
      assert input[q] == '*' as int && next == q + 1;
      var closes := Follows(l, '/' as byte);
      if closes {
        return Closes;
      }
    } else {
      assert input[q] != '*' as int;
    }
    CommentEndSkips(input, q, next);
    return Continues;
  }

  /** lexMultiComment: up to and including the closing "*" + "/"; "unfinished comment" at the end of the input. */
  method LexMultiCommentFn(l: Lexer<Type>) returns (out: Outcome)
    requires l.Valid()
    modifies l
    ensures l.Valid()
    ensures var e := MultiCommentSpec(l.input, old(l.pos));
      Did(l, e, old(l.start), old(l.tokens), old(l.err)) && out == e.outcome
  {
    ghost var target := CommentEnd(l.input, l.pos);
    while true
      invariant l.Valid()
      invariant l.start == old(l.start) && l.tokens == old(l.tokens) && l.err == old(l.err)
      invariant CommentEnd(l.input, l.pos) == target
      decreases |l.input| - l.pos
    {
      var step := CommentRune(l);
      if step == RunsOut {
        return Fail(Message(UnfinishedComment));
      } else if step == Closes {
        EmitAs(l, Comment);
        return Then(Lex);
      }
    }
  }

  /** The '<' case of Lex. */
  method LexLess(l: Lexer<Type>) returns (out: Outcome)
    requires l.Valid()
    modifies l
    ensures l.Valid()
    ensures var e := LessSpec(l.input, old(l.pos));
      Did(l, e, old(l.start), old(l.tokens), old(l.err)) && out == e.outcome
  {
    var n := l.Peek();
    if n == '>' as int {
      n := l.Read();
      EmitAs(l, Neq);
    } else if n == '=' as int {
      n := l.Read();
      EmitAs(l, Leq);
    } else {
      EmitAs(l, Le);
    }
    return Then(Lex);
  }

  /** The '>' case of Lex. */
  method LexGreater(l: Lexer<Type>) returns (out: Outcome)
    requires l.Valid()
    modifies l
    ensures l.Valid()
    ensures var e := GreaterSpec(l.input, old(l.pos));
      Did(l, e, old(l.start), old(l.tokens), old(l.err)) && out == e.outcome
  {
    var n := l.Peek();
    if n == '=' as int {
      n := l.Read();
      EmitAs(l, Geq);
    } else {
      EmitAs(l, Ge);
    }
    return Then(Lex);
  }

  /** The '!' case of Lex. */
  method LexBang(l: Lexer<Type>) returns (out: Outcome)
    requires l.Valid()
    modifies l
    ensures l.Valid()
    ensures var e := BangSpec(l.input, old(l.pos));
      Did(l, e, old(l.start), old(l.tokens), old(l.err)) && out == e.outcome
  {
    var n := l.Read();
    if n != '=' as int {
      return Fail(UnexpectedValue(n));
    }
    EmitAs(l, Neq);
    return Then(Lex);
  }

  /** The '-' case of Lex. */
  method LexDash(l: Lexer<Type>) returns (out: Outcome)
    requires l.Valid()
    modifies l
    ensures l.Valid()
    ensures var e := DashSpec(l.input, old(l.pos));
      Did(l, e, old(l.start), old(l.tokens), old(l.err)) && out == e.outcome
  {
    var n := l.Peek();
    if n == '-' as int {
      return Then(LexLineComment);
    }
    EmitAs(l, Sub);
    return Then(Lex);
  }

  /** The '/' case of Lex. */
  method LexSlash(l: Lexer<Type>) returns (out: Outcome)
    requires l.Valid()
    modifies l
    ensures l.Valid()
    ensures var e := SlashSpec(l.input, old(l.pos));
      Did(l, e, old(l.start), old(l.tokens), old(l.err)) && out == e.outcome
  {
    var n := l.Peek();
    if n == '/' as int {
      return Then(LexLineComment);
    } else if n == '*' as int {
      n := l.Read();
      return Then(LexMultiComment);
    }
    EmitAs(l, Div);
    return Then(Lex);
  }

  /** Lex: the state function at the start of a token. */
  method LexFn(l: Lexer<Type>) returns (out: Outcome)
    requires l.Valid()
    modifies l
    ensures l.Valid()
    ensures var e := LexSpec(l.input, old(l.pos));
      Did(l, e, old(l.start), old(l.tokens), old(l.err)) && out == e.outcome
  {
    ghost var p := l.pos;
    var r := l.Read();
    if r == EOFRune {
      return Stop;
    }
    out := LexRune(l, r, p);
  }

  /** The rest of Lex, once it has read the rune r that starts at byte p. */
  method LexRune(l: Lexer<Type>, r: int, ghost p: nat) returns (out: Outcome)
    requires l.Valid() && p < |l.input| && r == RuneAt(l.input, p) && l.pos == p + WidthAt(l.input, p)
    modifies l
    ensures l.Valid()
    ensures var e := LexSpec(l.input, p);
      Did(l, e, old(l.start), old(l.tokens), old(l.err)) && out == e.outcome
  {
    assert LexSpec(l.input, p) == RuneSpec(l.input, r, l.pos);
    var single := Single(r);
    if single.Some? {
      EmitAs(l, single.value);
      return Then(Lex);
    }
    if r == '\'' as int {
      return Then(LexString);
    } else if IsDigit(r) {
      return Then(LexNumber);
    } else if r == '"' as int {
      return Then(LexQuotedName);
    } else if IsOperatorStart(r) {
      out := LexOperator(l, r);
    } else if IsSpace(r) {
      return Then(LexWhitespace);
    } else if IsLetter(r) || r == '_' as int {
      return Then(LexLiteral);
    } else {
      return Fail(UnexpectedValue(r));
    }
  }

  /** The cases of Lex for a rune that may start a token of two. */
  method LexOperator(l: Lexer<Type>, r: int) returns (out: Outcome)
    requires l.Valid() && IsOperatorStart(r)
    modifies l
    ensures l.Valid()
    ensures var e := OperatorSpec(l.input, r, old(l.pos));
      Did(l, e, old(l.start), old(l.tokens), old(l.err)) && out == e.outcome
  {
    if r == '<' as int {
      out := LexLess(l);
    } else if r == '>' as int {
      out := LexGreater(l);
    } else if r == '!' as int {
      out := LexBang(l);
    } else if r == '-' as int {
      out := LexDash(l);
    } else {
      out := LexSlash(l);
    }
  }

  /** Calling the state function fn. */
  method Step(l: Lexer<Type>, fn: StateFn) returns (out: Outcome)
    requires l.Valid()
    modifies l
    ensures l.Valid()
    ensures var e := StepSpec(l.input, fn, old(l.start), old(l.pos));
      Did(l, e, old(l.start), old(l.tokens), old(l.err)) && out == e.outcome
  {
    match fn
    case Lex => out := LexFn(l);
    case LexString => out := LexStringFn(l);
    case LexNumber => out := LexNumberFn(l);
    case LexQuotedName => out := LexQuotedNameFn(l);
    case LexLiteral => out := LexLiteralFn(l);
    case LexWhitespace => out := LexWhitespaceFn(l);
    case LexLineComment => out := LexLineCommentFn(l);
    case LexMultiComment => out := LexMultiCommentFn(l);
  }

  /**
   * The run loop's progress after the state function fn took the lexer
   * from (start0, p0) to (start1, p1) and its queue from tokens0 to
   * tokens1: the tokens emitted so far followed by those the rest of the
   * run will emit are the same before and after.
   */
  ghost predicate KeepsRun(input: seq<byte>, fn: StateFn, start0: nat, p0: nat, tokens0: seq<Token<Type>>,
                           start1: nat, p1: nat, tokens1: seq<Token<Type>>, out: Outcome)
    requires start0 <= p0 <= |input| && start1 <= p1 <= |input|
  {
    var r := Tokenize(input, fn, start0, p0);
    (out.Then? ==>
       var rest := Tokenize(input, out.next, start1, p1);
       tokens1 + rest.tokens == tokens0 + r.tokens && rest.ending == r.ending &&
       (p1 > p0 || (p1 == p0 && out.next.Lex? && !fn.Lex?))) &&
    (!out.Then? ==> tokens1 == tokens0 + r.tokens) &&
    (out.Stop? ==> r.ending == Done) &&
    (out.Fail? ==> r.ending == Failed(out.err)) &&
    (out.Spin? ==> r.ending == Hung)
  }

  /** A state function that had the effect its specification describes keeps the run on course. */
  lemma StepKeepsRun(input: seq<byte>, fn: StateFn, start0: nat, p0: nat, tokens0: seq<Token<Type>>,
                     start1: nat, p1: nat, tokens1: seq<Token<Type>>, out: Outcome)
    requires start0 <= p0 <= |input| && start1 <= p1 <= |input|
    requires var e := StepSpec(input, fn, start0, p0);
      out == e.outcome && p1 == e.end &&
      (e.emit.None? ==> start1 == start0 && tokens1 == tokens0) &&
      (e.emit.Some? ==> start1 == e.end && tokens1 == tokens0 + [MakeToken(input, e.emit.value, start0, e.end)])
    ensures KeepsRun(input, fn, start0, p0, tokens0, start1, p1, tokens1, out)
  {
    var e := StepSpec(input, fn, start0, p0);
    var emitted := if e.emit.Some? then [MakeToken(input, e.emit.value, start0, e.end)] else [];
    TokenizeUnfold(input, fn, start0, p0);
    assert tokens1 == tokens0 + emitted;
    if out.Then? {
      var rest := Tokenize(input, out.next, start1, p1);
      JoinAssoc(tokens0, emitted, rest.tokens);
    }
  }

  lemma JoinAssoc(a: seq<Token<Type>>, b: seq<Token<Type>>, c: seq<Token<Type>>)
    ensures a + (b + c) == (a + b) + c
  {
  }

  /** One round of the run loop: call the state function fn. */
  method RunStep(l: Lexer<Type>, fn: StateFn) returns (out: Outcome)
    requires l.Valid()
    modifies l
    ensures l.Valid() && l.err == old(l.err)
    ensures KeepsRun(l.input, fn, old(l.start), old(l.pos), old(l.tokens), l.start, l.pos, l.tokens, out)
  {
    ghost var start0, p0, tokens0 := l.start, l.pos, l.tokens;
    out := Step(l, fn);
    StepKeepsRun(l.input, fn, start0, p0, tokens0, l.start, l.pos, l.tokens, out);
  }

  /**
   * The lexer's run loop with Lex as the first state function: call state
   * functions until one returns nil or an error, recording the error for
   * Err. It returns true where a state function never returns, and the
   * Go loop with it.
   */
  method Run(l: Lexer<Type>) returns (hung: bool)
    requires l.Valid()
    modifies l
    ensures l.Valid()
    ensures var r := Tokenize(l.input, Lex, old(l.start), old(l.pos));
      l.tokens == old(l.tokens) + r.tokens && (hung <==> r.ending.Hung?) &&
      l.Err() == (if r.ending.Failed? then Some(r.ending.err) else old(l.err))
  {
    var fn := Lex;
    ghost var whole := Tokenize(l.input, Lex, l.start, l.pos);
    while true
      invariant l.Valid() && l.err == old(l.err)
      invariant var r := Tokenize(l.input, fn, l.start, l.pos);
        l.tokens + r.tokens == old(l.tokens) + whole.tokens && r.ending == whole.ending
      decreases |l.input| - l.pos, if fn.Lex? then 0 else 1
    {
      var out := RunStep(l, fn);
      match out
      case Stop =>
        return false;
      case Fail(err) =>
        l.Fail(err);
        return false;
      case Spin =>
        return true;
      case Then(next) =>
        fn := next;
    }
  }

  /** NewLexer(Lex, input): a lexer over input that has run its state functions. */
  method NewSqlLexer(input: seq<byte>) returns (l: Lexer<Type>, hung: bool)
    ensures fresh(l) && l.Valid() && l.input == input
    ensures var r := Tokenize(input, Lex, 0, 0);
      l.tokens == r.tokens && (hung <==> r.ending.Hung?) &&
      l.Err() == (if r.ending.Failed? then Some(r.ending.err) else None)
  {
    l := new Lexer(input);
    hung := Run(l);
  }

  predicate NotWhitespace(t: Token<Type>)
  {
    t.ttype != Whitespace
  }

  predicate NotComment(t: Token<Type>)
  {
    t.ttype != Comment
  }

  /** SkipWhiteSpace: the tokens of it, without the Whitespace ones. */
  method SkipWhiteSpace(it: Iterator<Token<Type>>) returns (f: Filter<Token<Type>>)
    requires it.Valid()
    ensures fresh(f) && f.it == it && f.Yields() == Filtered(NotWhitespace, it.Yields())
  {
    f := new Filter(it, NotWhitespace);
  }

  /** SkipComments: the tokens of it, without the Comment ones. */
  method SkipComments(it: Iterator<Token<Type>>) returns (f: Filter<Token<Type>>)
    requires it.Valid()
    ensures fresh(f) && f.it == it && f.Yields() == Filtered(NotComment, it.Yields())
  {
    f := new Filter(it, NotComment);
  }

  /** A token that is neither whitespace nor a comment. */
  predicate Significant(t: Token<Type>)
  {
    t.ttype != Whitespace && t.ttype != Comment
  }

  /** Skipping whitespace and then comments keeps exactly the tokens that are neither, in order. */
  lemma {:induction false} SkipBoth(tokens: seq<Token<Type>>)
    ensures Filtered(NotComment, Filtered(NotWhitespace, tokens)) == Filtered(Significant, tokens)
    ensures forall t :: t in Filtered(NotComment, Filtered(NotWhitespace, tokens)) <==>
      t in tokens && t.ttype != Whitespace && t.ttype != Comment
  {
    if tokens != [] {
      SkipBoth(tokens[1..]);
      FilteredAppend(NotComment, if NotWhitespace(tokens[0]) then [tokens[0]] else [], Filtered(NotWhitespace, tokens[1..]));
      if NotWhitespace(tokens[0]) {
        assert [tokens[0]][1..] == [];
      }
    }
    forall t ensures t in Filtered(NotComment, Filtered(NotWhitespace, tokens)) <==>
      t in tokens && t.ttype != Whitespace && t.ttype != Comment {
      FilteredMembers(NotComment, Filtered(NotWhitespace, tokens), t);
      FilteredMembers(NotWhitespace, tokens, t);
    }
  }
}
