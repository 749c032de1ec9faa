/**
 * The avramx lexer (avramx/lex/lexer.go): a cursor over a UTF-8 string
 * that state functions drive with Read, Peek and Backup, cutting the text
 * read so far into tokens with Emit or discarding it with Drop.
 */
module AvramxLex {
  import opened Utf8
  import opened Errors

  /** The pseudo rune Read returns once the input is exhausted; no code point is negative. */
  const EOFRune: int := -1

  /** A token: its type, its text, the line the lexer was on when it was emitted, where it starts, and its length in bytes. */
  datatype Token<T> = Token(ttype: T, body: seq<byte>, line: int, start: nat, span: nat)

  /**
   * The width history of the runes read since the last EOF. Go tells a
   * nil slice (Backup does nothing) from an empty one (Backup indexes out
   * of range), and so does the model.
   */
  datatype Widths = Nil | Widths(ws: seq<nat>)
  {
    function List(): seq<nat>
    {
      if Nil? then [] else ws
    }
  }

  /** What Emit and Drop did with the text between start and pos. */
  datatype Piece<T> = Emitted(token: Token<T>) | Dropped(text: seq<byte>)
  {
    function Text(): seq<byte>
    {
      if Emitted? then token.body else text
    }
  }

  /** The texts of the pieces, in order. */
  function Concat<T>(pieces: seq<Piece<T>>): seq<byte>
  {
    if pieces == [] then [] else Concat(pieces[..|pieces| - 1]) + pieces[|pieces| - 1].Text()
  }

  /** The tokens among the pieces, in order. */
  function EmittedTokens<T>(pieces: seq<Piece<T>>): seq<Token<T>>
  {
    if pieces == [] then []
    else EmittedTokens(pieces[..|pieces| - 1]) + (if pieces[|pieces| - 1].Emitted? then [pieces[|pieces| - 1].token] else [])
  }

  /**
   * ws are the widths of runes decoded one after another, the last one
   * ending at byte end: popping a width always steps back onto the first
   * byte of the rune that was read.
   */
  ghost predicate RunesEndAt(input: seq<byte>, ws: seq<nat>, end: nat)
    decreases |ws|
  {
    ws == [] ||
    (var w := ws[|ws| - 1];
     w <= end && end - w < |input| && Decode(input, end - w).1 == w &&
     RunesEndAt(input, ws[..|ws| - 1], end - w))
  }

  ghost predicate LexerInv<T>(input: seq<byte>, start: nat, pos: nat, width: Widths, line: int,
                              tokens: seq<Token<T>>, pieces: seq<Piece<T>>, received: seq<Token<T>>)
  {
      start <= pos <= |input| &&
      (width.Widths? ==> RunesEndAt(input, width.ws, pos)) &&
      line == 1 + Newlines(input[..pos]) &&
      Concat(pieces) == input[..start] && Tiles(input, pieces) &&
      EmittedTokens(pieces) == received + tokens
  }

  class Lexer<T(0)> {
    const input: seq<byte>
    /** Where the text of the next token begins. */
    var start: nat
    var pos: nat
    var width: Widths
    var line: int
    /** Emitted tokens not yet taken by Next, oldest first. */
    var tokens: seq<Token<T>>
    var err: Option<Error>
    /** Everything Emit and Drop did, in order. */
    ghost var pieces: seq<Piece<T>>
    /** The tokens Next has handed out. */
    ghost var received: seq<Token<T>>

    ghost predicate Valid()
      reads this
    {
      LexerInv(input, start, pos, width, line, tokens, pieces, received)
    }

    /** NewLexer, before its state functions run. */
    constructor (input: seq<byte>)
      ensures Valid() && this.input == input
      ensures start == 0 && pos == 0 && width == Nil && line == 1
      ensures tokens == [] && err == None && pieces == [] && received == []
    {
      this.input := input;
      start := 0;
      pos := 0;
      width := Nil;
      line := 1;
      tokens := [];
      err := None;
      pieces := [];
      received := [];
      assert input[..0] == [];
    }

    /** Body: the text the next token would have. */
    function Body(): (b: seq<byte>)
      reads this
      requires Valid()
      ensures |b| == pos - start && input[..start] + b == input[..pos]
    {
      input[start..pos]
    }

    /** Err: the error the state functions stopped with, if any. */
    function Err(): Option<Error>
      reads this
    {
      err
    }

    /**
     * Read: the rune at pos, which pos moves past, its width pushed onto
     * the history and the line counted on when it is '\n'. At the end of
     * the input it returns EOF, clears the history and moves nothing.
     */
    method Read() returns (r: int)
      requires Valid()
      modifies this
      ensures Valid()
      ensures start == old(start) && tokens == old(tokens) && err == old(err)
      ensures pieces == old(pieces) && received == old(received)
      ensures old(pos) == |input| ==> r == EOFRune && pos == old(pos) && line == old(line) && width == Nil
      ensures old(pos) < |input| ==>
        var d := Decode(input, old(pos));
        r == d.0 && pos == old(pos) + d.1 && width == Widths(old(width.List()) + [d.1]) &&
        line == old(line) + (if r == Newline then 1 else 0)
    {
      if pos >= |input| {
        width := Nil;
        return EOFRune;
      }
      var d := Decode(input, pos);
      ReadKeeps(input, start, pos, width, line, tokens, pieces, received);
      width := Widths(width.List() + [d.1]);
      pos := pos + d.1;
      r := d.0;
      if r == Newline {
        line := line + 1;
      }
    }

    /**
     * Backup: undo the most recent Read, stepping pos back by its width
     * and the line back when that rune was '\n'. With no history (after
     * an EOF, or before any Read) it does nothing. The Go code indexes out
     * of range on an emptied history, and lets pos fall before start
     * (so that Body would slice backwards); callers must avoid both.
     */
    method Backup()
      requires Valid()
      requires width.Widths? ==> |width.ws| > 0 && start + width.ws[|width.ws| - 1] <= pos
      modifies this
      ensures Valid()
      ensures start == old(start) && tokens == old(tokens) && err == old(err)
      ensures pieces == old(pieces) && received == old(received)
      ensures old(width).Nil? ==> pos == old(pos) && line == old(line) && width == Nil
      ensures old(width).Widths? ==>
        var ws := old(width.ws);
        var w := ws[|ws| - 1];
        pos == old(pos) - w && width == Widths(ws[..|ws| - 1]) &&
        line == old(line) - (if w == 1 && input[pos] == Newline then 1 else 0)
    {
      if width.Nil? {
        return;
      }
      var w := width.ws[|width.ws| - 1];
      BackupKeeps(input, start, pos, width, line, tokens, pieces, received);
      width := Widths(width.ws[..|width.ws| - 1]);
      pos := pos - w;
      if w == 1 && input[pos] == Newline {
        line := line - 1;
      }
    }

    /** Peek: the rune Read would return, with pos and line left where they were. */
    method Peek() returns (r: int)
      requires Valid()
      modifies this
      ensures Valid()
      ensures start == old(start) && tokens == old(tokens) && err == old(err)
      ensures pieces == old(pieces) && received == old(received)
      ensures pos == old(pos) && line == old(line)
      ensures r == if pos < |input| then Decode(input, pos).0 else EOFRune
      ensures width == if pos < |input| then Widths(old(width.List())) else Nil
    {
      ghost var ws := width.List();
      r := Read();
      if old(pos) < |input| {
        var w := Decode(input, old(pos)).1;
        assert (ws + [w])[..|ws|] == ws && (ws + [w])[|ws|] == w;
      }
      Backup();
    }

    /**
     * Emit: cut the text between start and pos into a token of type
     * ttype, queue it for Next, and start the next token at pos.
     */
    method Emit(ttype: T)
      requires Valid()
      modifies this
      ensures Valid()
      ensures pos == old(pos) && line == old(line) && width == old(width) && err == old(err)
      ensures start == pos && received == old(received)
      ensures tokens == old(tokens) + [Token(ttype, old(Body()), line, old(start), pos - old(start))]
      ensures pieces == old(pieces) + [Emitted(Token(ttype, old(Body()), line, old(start), pos - old(start)))]
    {
      var tok := Token(ttype, input[start..pos], line, start, pos - start);
      CutKeeps(input, start, pos, width, line, tokens, pieces, received, Emitted(tok));
      pieces := pieces + [Emitted(tok)];
      tokens := tokens + [tok];
      start := pos;
    }

    /** Drop: discard the text between start and pos. */
    method Drop()
      requires Valid()
      modifies this
      ensures Valid()
      ensures pos == old(pos) && line == old(line) && width == old(width) && err == old(err)
      ensures start == pos && tokens == old(tokens) && received == old(received)
      ensures pieces == old(pieces) + [Dropped(old(Body()))]
    {
      CutKeeps(input, start, pos, width, line, tokens, pieces, received, Dropped(input[start..pos]));
      pieces := pieces + [Dropped(input[start..pos])];
      start := pos;
    }

    /**
     * Next: the oldest emitted token not yet taken, or false once there
     * is none. The Go lexer hands tokens over through a channel while its
     * state functions run; here they have run to the end first.
     */
    method Next() returns (tok: Token<T>, ok: bool)
      requires Valid()
      modifies this
      ensures Valid()
      ensures start == old(start) && pos == old(pos) && width == old(width) && line == old(line)
      ensures err == old(err) && pieces == old(pieces)
      ensures ok <==> old(tokens) != []
      ensures ok ==> tok == old(tokens)[0] && tokens == old(tokens)[1..] && received == old(received) + [tok]
      ensures !ok ==> tokens == old(tokens) && received == old(received)
    {
      if tokens == [] {
        tok := *;
        return tok, false;
      }
      tok := tokens[0];
      ok := true;
      NextKeeps(input, start, pos, width, line, tokens, pieces, received);
      received := received + [tok];
      tokens := tokens[1..];
    }

    /** Record the error a state function stopped with, as run does. */
    method Fail(e: Error)
      requires Valid()
      modifies this
      ensures Valid() && Err() == Some(e)
      ensures start == old(start) && pos == old(pos) && width == old(width) && line == old(line)
      ensures tokens == old(tokens) && pieces == old(pieces) && received == old(received)
    {
      err := Some(e);
    }
  }

  /** Read keeps the lexer's invariant: the width pushed ends a decoded rune and the line counts the '\n' read. */
  lemma ReadKeeps<T>(input: seq<byte>, start: nat, pos: nat, width: Widths, line: int,
                     tokens: seq<Token<T>>, pieces: seq<Piece<T>>, received: seq<Token<T>>)
    requires LexerInv(input, start, pos, width, line, tokens, pieces, received) && pos < |input|
    ensures var d := Decode(input, pos);
      LexerInv(input, start, pos + d.1, Widths(width.List() + [d.1]),
               line + (if d.0 == Newline then 1 else 0), tokens, pieces, received)
  {
    LinesAcrossRune(input, pos);
    PushWidth(input, width.List(), pos);
  }

  /** Backup keeps the lexer's invariant when the rune it steps back over lies after start. */
  lemma BackupKeeps<T>(input: seq<byte>, start: nat, pos: nat, width: Widths, line: int,
                       tokens: seq<Token<T>>, pieces: seq<Piece<T>>, received: seq<Token<T>>)
    requires LexerInv(input, start, pos, width, line, tokens, pieces, received)
    requires width.Widths? && |width.ws| > 0 && start + width.ws[|width.ws| - 1] <= pos
    ensures var w := width.ws[|width.ws| - 1];
      w <= pos && pos - w < |input| &&
      LexerInv(input, start, pos - w, Widths(width.ws[..|width.ws| - 1]),
               line - (if w == 1 && input[pos - w] == Newline then 1 else 0), tokens, pieces, received)
  {
    var w := width.ws[|width.ws| - 1];
    LinesAcrossRune(input, pos - w);
  }

  /** Emit and Drop keep the lexer's invariant: the piece cut is the text from start to pos. */
  lemma CutKeeps<T>(input: seq<byte>, start: nat, pos: nat, width: Widths, line: int,
                    tokens: seq<Token<T>>, pieces: seq<Piece<T>>, received: seq<Token<T>>, p: Piece<T>)
    requires LexerInv(input, start, pos, width, line, tokens, pieces, received)
    requires p.Emitted? ==> p.token == Token(p.token.ttype, input[start..pos], line, start, pos - start)
    requires p.Dropped? ==> p.text == input[start..pos]
    ensures LexerInv(input, pos, pos, width, line, tokens + (if p.Emitted? then [p.token] else []),
                     pieces + [p], received)
  {
    assert input[..pos] == input[..start] + input[start..pos];
    assert (pieces + [p])[..|pieces|] == pieces;
    EmitTiles(input, pieces, p);
  }

  /** Next keeps the lexer's invariant: the token handed out moves from tokens to received. */
  lemma NextKeeps<T>(input: seq<byte>, start: nat, pos: nat, width: Widths, line: int,
                     tokens: seq<Token<T>>, pieces: seq<Piece<T>>, received: seq<Token<T>>)
    requires LexerInv(input, start, pos, width, line, tokens, pieces, received) && tokens != []
    ensures LexerInv(input, start, pos, width, line, tokens[1..], pieces, received + [tokens[0]])
  {
    assert received + tokens == (received + [tokens[0]]) + tokens[1..];
  }

  /** Reading the rune at pos moves the line count on exactly when that rune is '\n'. */
  lemma LinesAcrossRune(input: seq<byte>, pos: nat)
    requires pos < |input|
    ensures var d := Decode(input, pos);
      Newlines(input[..pos + d.1]) == Newlines(input[..pos]) + (if d.0 == Newline then 1 else 0)
    ensures var d := Decode(input, pos);
      d.0 == Newline <==> d.1 == 1 && input[pos] == Newline
  {
    var w := Decode(input, pos).1;
    assert input[..pos + w] == input[..pos] + input[pos..pos + w];
    NewlinesAppend(input[..pos], input[pos..pos + w]);
    NewlinesOfRune(input, pos);
  }

  /** Pushing the width of the rune read at pos keeps the history a run of decoded runes. */
  lemma PushWidth(input: seq<byte>, ws: seq<nat>, pos: nat)
    requires pos < |input| && (ws == [] || RunesEndAt(input, ws, pos))
    ensures RunesEndAt(input, ws + [Decode(input, pos).1], pos + Decode(input, pos).1)
  {
    var ws' := ws + [Decode(input, pos).1];
    assert ws'[..|ws'| - 1] == ws;
  }

  /**
   * What the pieces say about the input: each emitted token starts where
   * the text of the pieces before it ends, and its body is the input
   * between its start and start + span.
   */
  ghost predicate Tiles<T>(input: seq<byte>, pieces: seq<Piece<T>>)
    decreases |pieces|
  {
    pieces == [] ||
    (var before := pieces[..|pieces| - 1];
     Tiles(input, before) &&
     (pieces[|pieces| - 1].Emitted? ==>
        var t := pieces[|pieces| - 1].token;
        t.start == |Concat(before)| && t.span == |t.body| &&
        t.start + t.span <= |input| && t.body == input[t.start..t.start + t.span]))
  }

  /** Adding a piece that continues where the pieces end keeps them tiling the input. */
  lemma EmitTiles<T>(input: seq<byte>, pieces: seq<Piece<T>>, p: Piece<T>)
    requires Tiles(input, pieces)
    requires Concat(pieces + [p]) <= input
    requires p.Emitted? ==> p.token.start == |Concat(pieces)| && p.token.span == |p.token.body|
    ensures Tiles(input, pieces + [p])
  {
    var ps := pieces + [p];
    assert ps[..|ps| - 1] == pieces;
  }

  /**
   * The lexer's tokens are the input cut into pieces: every emitted
   * token's body is the input between its start and start + span, and it
   * starts where the text before it ends.
   */
  lemma {:induction false} TokensAreInputSlices<T>(input: seq<byte>, pieces: seq<Piece<T>>, i: nat)
    requires Tiles(input, pieces) && i < |pieces| && pieces[i].Emitted?
    ensures var t := pieces[i].token;
      t.start == |Concat(pieces[..i])| && t.start + t.span <= |input| && t.body == input[t.start..t.start + t.span]
    decreases |pieces|
  {
    if i < |pieces| - 1 {
      var before := pieces[..|pieces| - 1];
      assert before[..i] == pieces[..i];
      TokensAreInputSlices(input, before, i);
    }
  }
}
