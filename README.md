# avram, modelled in Dafny

avram is a parser-combinator library for Go, in two generations, with a lexer and a SQL tokenizer built on the second one.

- **The text engine (package `avram`).** A `Scanner` walks a UTF-8 string. It keeps a byte position, a stack of the widths of the runes it has read, and a line count. Parsers are functions of the scanner. They backtrack through `Try`, which puts the position back after a failure. Text helpers such as `Rune`, `Satisfy`, `TakeWhile` and `Consumed` sit on the scanner's `MatchRune` and `MatchString`.
- **The token engine (package `avramx`).** A generic `Scanner[T]` pulls elements from an `Iterator` into a buffer. Its position can move back anywhere inside that buffer. `Or`, `Choice`, `Maybe`, `LookAhead` and the repetition combinators save and restore that position themselves.
- **The lexer (`avramx/lex`).** A state-machine lexer. State functions `Read`, `Peek` and `Backup` runes, then `Emit` or `Drop` the text read since the last token.
- **The SQL tokenizer (`avramx/sql`).** Its state functions cover operators, comments, string literals, numbers and case-insensitive keywords.
- **`result`.** A value-with-error type with `Map`, `Flatten`, `Lift` and a parser `Unwrap`.

## How the model is built

**Modules.** There is one module per Go source file:

- `Avram*` for the root package;
- `Avramx*` for `avramx`;
- `AvramxLex` and `SqlLexer` for the lexers;
- `Result*` for `result`.

Shared modules hold the rest:

- errors (`Errors`);
- parser replies (`Replies`);
- the UTF-8 decoder and rune runs (`Utf8`);
- the `unicode` classes the library calls (`UnicodeClasses`).

**Parsers and scanners.**
- A parser is a function from a scanner state to a reply. The reply carries the state it leaves behind on failure too, because several combinators depend on how far a failed parser got.
- The root scanner's state is its input, position, width history and line count. The token scanner's state is the source sequence, the buffer pulled so far (always a prefix of the source) and the position.
- Both Go `Scanner` types are also Dafny classes. Their methods are proved to update their fields exactly as the pure step functions say (`ReadRuneStep`, `ReadStep`, `UnreadStep` and the others).

**Loops.** Where the Go code loops, the model has a method with a `while` loop proved equal to the recursive function the combinators use. This covers:

- `List`, `Count`, `Many`, `ManyTill`, `ChainL1` and `Choice`;
- `filter.Next`;
- `MatchString`;
- `Runes`;
- the lexer's state functions and its run loop.

**Lexer.** The lexer is a class with the Go fields `start`, `pos`, `width` and `line`. Tokens go into a sequence, which `Next` pops. Ghost fields record everything `Emit` and `Drop` cut.

**SQL tokenizer.** Each state function is a method proved against a specification function. The run loop is proved to emit exactly the tokens of `Tokenize`. Two lemmas then say what `Tokenize` produces:
- the token bodies, in order, are the input, with nothing dropped;
- every token is the slice of the input it claims to be.

**Where the code and its documentation or tests disagree, the model follows the code:**
- `avramx.Or` and `avramx.Choice` rewind after every failed alternative, although their comments say otherwise.
- The root `Or`, the root `ChainL1`, the `avramx` `ManyTill` and `lexLineComment` are listed under Findings.

## Model

| member | source | states |
|---|---|---|
| AvramxScanner.NewScan | avramx/scanner.go:17-23 | a new scanner has pulled nothing from its iterator and stands at position 0 |
| AvramxScanner.AdvanceStep | avramx/scanner.go:68-77 | advance appends exactly the next element of the source to the buffer, or fails with EOF and changes nothing when the iterator is exhausted |
| AvramxScanner.ReadStep | avramx/scanner.go:39-52 | Read returns the next element of the source whether it was buffered or freshly pulled, moves the position by one, pulls at most one element, and fails with EOF only when the source is exhausted |
| AvramxScanner.UnreadStep | avramx/scanner.go:58-66 | Unread fails with "no elements to unread" exactly at position 0 and otherwise steps back by one, buffer untouched |
| AvramxScanner.ReadThenUnread | avramx/scanner.go:39-66 | an Unread right after a successful Read succeeds and returns to the Read's position |
| AvramxScanner.ReadReplays | avramx/scanner.go:39-52 | reading again from a restored position replays the buffered element: the backtracking the scanner exists for |
| AvramxScanner.UnreadBackToStart | avramx/scanner.go:58-66 | n Unreads in a row succeed exactly when n is at most the position, landing at position - n; otherwise they stop at 0 with the error |
| AvramxScanner.Scanner.constructor | avramx/scanner.go:17-23 | NewScanner's object: its state is NewScan of what the iterator will yield |
| AvramxScanner.Scanner.Advance | avramx/scanner.go:68-77 | updates the buffer in place exactly as AdvanceStep says and reports its error |
| AvramxScanner.Scanner.Read | avramx/scanner.go:39-52 | updates the fields in place exactly as ReadStep says and returns its element or error |
| AvramxScanner.Scanner.Unread | avramx/scanner.go:58-66 | updates the position in place exactly as UnreadStep says |
| AvramxPair.MakePair | avramx/pair.go:22-27 | the pair's Left is a and its Right is b |
| AvramxPair.MakePairOfFields | avramx/pair.go:11-27 | MakePair of a pair's two fields is that pair |
| AvramxPair.PairEquality | avramx/pair.go:11-27 | two pairs are equal exactly when both their fields are |
| AvramxPair.MakePairNested | avramx/pair.go:22-27 | nested pairs keep each component where it was put |
| AvramxLift.Yield | avramx/lift.go:6-16 | the final `return f(vala)` step: consumes nothing, succeeds with the value exactly when the error is nil, and fails with that error otherwise |
| AvramxLift.Lift | avramx/lift.go:6-16 | Lift(f, p) is p bound to the parser that answers f's (value, error) pair |
| AvramxLift.Lift2 | avramx/lift.go:19-39 | Lift2 is p1 then p2 then f's pair, the first failure stopping the chain |
| AvramxLift.Lift3 | avramx/lift.go:42-69 | the same chain for three parsers |
| AvramxLift.Lift4 | avramx/lift.go:72-106 | the same chain for four parsers |
| AvramxLift.Lift2Total | avramx/combinators.go:258-262 | lifting a total function through success2 fails exactly when one of the parsers fails and otherwise answers f of both values where the second parser stopped |
| AvramxIterator.Iterator.constructor | avramx/iterator.go:7-9 | an iterator yields exactly the elements given, in order |
| AvramxIterator.Iterator.Next | avramx/iterator.go:7-9 | Next hands out the first element still to come and drops it; once exhausted it reports false and changes nothing |
| AvramxIterator.FirstMatch | avramx/iterator.go:46-58 | the index at which filter.Next's loop stops: nothing before it passes the predicate, and the element at it passes (or it is the end) |
| AvramxIterator.FirstMatchIs | avramx/iterator.go:46-58 | any index with those two properties is the first match: the stopping point is unique |
| AvramxIterator.FilteredMembers | avramx/iterator.go:29-39 | a filtered iterator yields exactly the elements of the source that pass the predicate |
| AvramxIterator.FilteredAllPass | avramx/iterator.go:29-39 | filtering with a predicate every element passes changes nothing |
| AvramxIterator.FilteredTwice | avramx/iterator.go:29-39 | filtering twice is filtering once by both predicates (as the SQL lexer's SkipComments(SkipWhiteSpace(it)) does) |
| AvramxIterator.FilteredAppend | avramx/iterator.go:29-39 | filtering keeps the order of the source: it distributes over concatenation |
| AvramxIterator.FilteredSkipsTo | avramx/iterator.go:46-58 | the elements before the first match are consumed and dropped; the first match is yielded next |
| AvramxIterator.Filter.constructor | avramx/iterator.go:37-39 | Filter keeps the iterator and predicate it is given and nothing else |
| AvramxIterator.Filter.Next | avramx/iterator.go:46-58 | the loop yields the first element that passes the predicate and leaves the source just past it, or reports false with the source drained; it yields exactly the head of Filtered |
| AvramxScanner.Restore | avramx/alternatives.go:14-21 | putting the position back to a checkpoint inside the buffer keeps the source and the buffer |
| AvramxParser.Parse | avramx/parser.go:25-27 | Parse runs the parser on a new scanner over exactly the iterator's elements |
| AvramxParser.MatchStep | avramx/parser.go:42-59 | one run of Match only ever grows the buffer and keeps the source |
| AvramxParser.Match | avramx/parser.go:42-59 | Match succeeds exactly when an element is left and the rule accepts it, answers that element, moves one step whenever an element is left (a rejected element stays consumed), reports the rule's error on rejection and EOF at the end |
| AvramxParser.MatchAdvances | avramx/parser.go:42-59 | Match never moves back and always consumes on success |
| AvramxParser.Name | avramx/parser.go:69-79 | the same outcome and state as p; only a failure's error is wrapped with the name |
| AvramxParser.Maybe | avramx/parser.go:94-106 | never fails; Some of p's value where p stopped, or None with the position back where it started and whatever p buffered kept |
| AvramxParser.LookAhead | avramx/parser.go:116-125 | p's outcome and error, with the position back where it started whether p succeeded or not |
| AvramxParser.Return | avramx/parser.go:135-139 | succeeds with the value, consuming nothing |
| AvramxParser.Fail | avramx/parser.go:149-154 | fails with the error, consuming nothing |
| AvramxParser.Assert | avramx/parser.go:169-184 | succeeds exactly when p succeeds and the predicate accepts its value; a rejected value becomes the error fail makes of it; p's errors pass through; state is p's |
| AvramxParser.Bind | avramx/parser.go:199-209 | p's failure stops the chain where p stopped; p's success continues with f of its value from p's end state |
| AvramxParser.DiscardLeft | avramx/parser.go:219-228 | is Bind with a function ignoring p's value; it consumes whenever q does |
| AvramxParser.DiscardRight | avramx/parser.go:238-253 | is Bind of p, then q, then Return of p's value |
| AvramxParser.Wrap | avramx/parser.go:267-272 | is left, p, right in sequence, answering p's value |
| AvramxParser.BindReturnLeft | avramx/parser.go:199-209 | Return is a left identity of Bind |
| AvramxParser.BindReturnRight | avramx/parser.go:199-209 | Return is a right identity of Bind |
| AvramxParser.BindAssociative | avramx/parser.go:199-209 | Bind is associative |
| AvramxParser.BindFailLeft | avramx/parser.go:199-209 | a Fail absorbs whatever is bound after it |
| AvramxAlternatives.Or | avramx/alternatives.go:12-31 | p's reply if it succeeds; otherwise q's, run from where p started; when both fail the errors of p and then q are combined |
| AvramxAlternatives.OrTotal | avramx/alternatives.go:12-31 | Or with a never-failing alternative never fails |
| AvramxAlternatives.ChoiceFrom | avramx/alternatives.go:39-58 | the loop only grows the buffer, and a failure lands back at the start with "expected <msg>" |
| AvramxAlternatives.ChoiceFromWinner | avramx/alternatives.go:39-58 | a success of the loop is the reply of the first alternative to succeed: it ran from the starting position, and every earlier alternative failed |
| AvramxAlternatives.ChoiceAt | avramx/alternatives.go:39-58 | every alternative starts at Choice's starting position |
| AvramxAlternatives.Choice | avramx/alternatives.go:39-58 | a failure lands back at the starting position with an "expected <msg>" error |
| AvramxAlternatives.ChoiceWinner | avramx/alternatives.go:39-58 | a success is the reply of the first alternative to succeed, tried from the starting position after every earlier one failed |
| AvramxAlternatives.ChoiceCollectsErrors | avramx/alternatives.go:39-58 | on failure every alternative was tried, and the wrapped error lists all their errors in order (none for an empty list) |
| AvramxAlternatives.AllBranchesFail | avramx/alternatives.go:39-58 | a failing loop tried every alternative |
| AvramxAlternatives.ChoiceFromCollects | avramx/alternatives.go:39-58 | the loop's error accumulates the errors already collected followed by those of the remaining alternatives |
| AvramxAlternatives.ChoiceOfTwo | avramx/alternatives.go:12-58 | Choice of two agrees with Or on success; on failure it has Or's errors wrapped as "expected <msg>" and rewinds to the start, where Or does not |
| AvramxAlternatives.RunChoice | avramx/alternatives.go:39-58 | the for loop over the alternatives computes exactly Choice |
| AvramxCombinators.Prepend | avramx/combinators.go:248-250 | prepend's slice starts with the given element and goes on with exactly the given rest |
| AvramxCombinators.PrefixedByNothing | avramx/combinators.go:92-98 | putting no values in front of a reply changes nothing |
| AvramxCombinators.PrefixedByTwice | avramx/combinators.go:92-98 | putting values in front twice is putting their concatenation in front once |
| AvramxCombinators.Option | avramx/combinators.go:9-18 | never fails; p's value where p stopped, or the fallback without rewinding what a failed p consumed |
| AvramxCombinators.OptionAgainstOr | avramx/combinators.go:9-18 | Option(x, p) and Or(p, Return(x)) give the same value; they differ only in that Or rewinds a failed p |
| AvramxCombinators.Both | avramx/combinators.go:21-32 | succeeds exactly when p and then q succeed, with the pair of their values; otherwise the first failure; consumes whenever q does |
| AvramxCombinators.ListFrom | avramx/combinators.go:36-50 | the loop only grows the buffer and, on success, answers one value per parser |
| AvramxCombinators.List | avramx/combinators.go:36-50 | on success one value per parser; an empty list succeeds with nothing, consuming nothing |
| AvramxCombinators.ListCons | avramx/combinators.go:36-50 | a list of parsers is its head then the list of the rest, the values joined by prepend |
| AvramxCombinators.RunList | avramx/combinators.go:36-50 | the for loop computes exactly List |
| AvramxCombinators.CountFrom | avramx/combinators.go:54-68 | the loop only grows the buffer and answers exactly n values on success |
| AvramxCombinators.Count | avramx/combinators.go:54-68 | exactly n values on success, none for a non-positive n, which consumes nothing |
| AvramxCombinators.Copies | avramx/combinators.go:54-68 | n copies of the same parser |
| AvramxCombinators.CountIsList | avramx/combinators.go:36-68 | Count(n, p) behaves as List of n copies of p |
| AvramxCombinators.RunCount | avramx/combinators.go:54-68 | the for loop computes exactly Count |
| AvramxCombinators.ManyFrom | avramx/combinators.go:72-88 | the loop never fails, never moves back, and each value stands for at least one consumed element |
| AvramxCombinators.Many | avramx/combinators.go:72-88 | never fails, never moves back, no more values than elements consumed (for a p that consumes on success) |
| AvramxCombinators.RunMany | avramx/combinators.go:72-88 | the loop, with its rewind to the start of the failed attempt, computes exactly Many |
| AvramxCombinators.Many1 | avramx/combinators.go:92-98 | succeeds exactly when p does, with p's value followed by Many(p)'s from there; p's failure is its failure |
| AvramxCombinators.ManyIsMany1OrEmpty | avramx/combinators.go:72-98 | Many(p) is exactly Or(Many1(p), Return([])) |
| AvramxCombinators.ManyTillFrom | avramx/combinators.go:102-119 | the loop only grows the buffer |
| AvramxCombinators.ManyTill | avramx/combinators.go:102-119 | as written: a success of e ends with no more values; a failed e is not rewound and p resumes where e's attempt stopped, then the loop repeats |
| AvramxCombinators.RunManyTill | avramx/combinators.go:102-119 | the for loop computes exactly ManyTill |
| AvramxCombinators.ManyTillRewindFrom | avramx/combinators_test.go:286-327 | the loop the tests expect only grows the buffer |
| AvramxCombinators.ManyTillRewind | avramx/combinators_test.go:286-327 | as the tests expect it: e's failed attempt is rewound to the start before p runs |
| AvramxCombinators.Token | avramx/combinators_test.go:313-316 | Match of a rule accepting one element, which always consumes on success and never moves back |
| AvramxCombinators.HelloHelloWorldSteps | avramx/combinators_test.go:293-297 | what the "hello" and "world" tokens answer at each point of hello hello world |
| AvramxCombinators.ManyTillSkipsTerminatorAttempts | avramx/combinators.go:102-119 | as written, ManyTill on hello hello world yields a single "hello" |
| AvramxCombinators.ManyTillRewindFromSecond | avramx/combinators_test.go:293-297 | the rewinding loop from the second "hello" yields it and stops after "world" |
| AvramxCombinators.ManyTillRewindKeepsAll | avramx/combinators_test.go:293-297 | the rewinding ManyTill yields both "hello"s, as the test wants |
| AvramxCombinators.SepBy1 | avramx/combinators.go:130-136 | succeeds exactly when p does: p's value, then the values of as many "sep then p" as succeed |
| AvramxCombinators.SepBy | avramx/combinators.go:122-127 | never fails; SepBy1 when p succeeds, otherwise no values with the position rewound |
| AvramxCombinators.SkipMany | avramx/combinators.go:139-144 | never fails and ends where Many(p) ends |
| AvramxCombinators.SkipMany1 | avramx/combinators.go:147-152 | succeeds exactly when p does, ending where Many(p) ends after it; p's failure otherwise |
| AvramxCombinators.FixRun | avramx/combinators.go:157-172 | a run of the fixed point only grows the buffer |
| AvramxCombinators.Fix | avramx/combinators.go:157-172 | the fixed-point parser runs as FixRun at every state |
| AvramxCombinators.FixUnfolds | avramx/combinators.go:157-172 | for a grammar whose recursive references sit behind consumed input, Fix(f) is a fixed point of f |
| AvramxCombinators.FixCell.constructor | avramx/combinators.go:157-162 | the closure starts with f kept and not yet built |
| AvramxCombinators.FixCell.Run | avramx/combinators.go:163-169 | the sync.Once builds f(Fix(f)) exactly once, then every run answers as f(Fix(f)) |
| AvramxCombinators.ChainL1From | avramx/combinators.go:225-246 | the loop after the first operand never fails and only grows the buffer |
| AvramxCombinators.ChainL1 | avramx/combinators.go:225-246 | succeeds exactly when the first operand does; its failure otherwise |
| AvramxCombinators.RunChainL1 | avramx/combinators.go:225-246 | the for loop computes exactly ChainL1 |
| AvramxCombinators.ChainL1IsFoldLeft | avramx/combinators.go:225-246 | the operator/operand pairs are those of Many(Both(op, p)), folded from the left: 1-2-3 is (1-2)-3 |
| AvramxCombinators.ChainFrom | avramx/combinators.go:199-215 | chain(acc) never fails and only grows the buffer |
| AvramxCombinators.Chain | avramx/combinators.go:199-215 | chain(acc) never fails |
| AvramxCombinators.ChainIsGoChain | avramx/combinators.go:200-212 | Chain is the Or(Lift2(apply, op, Bind(p, chain)), Return(acc)) that Go builds |
| AvramxCombinators.ChainR1 | avramx/combinators.go:199-215 | succeeds exactly when the first operand does; its failure otherwise |
| AvramxCombinators.ChainIsFoldRight | avramx/combinators.go:199-215 | the pairs are those of Many(Both(op, p)), folded from the right: 1-2-3 is 1-(2-3) |
| AvramxCombinators.FoldsAgreeWhenAssociative | avramx/combinators.go:199-246 | with one associative operator, ChainL1's and ChainR1's folds agree |
| AvramxCombinators.FoldLeftShift | avramx/combinators.go:225-246 | for an associative operator, a left fold from f(a, b) is f(a, fold from b) |
| AvramxLex.Lexer.constructor | avramx/lex/lexer.go:31-41 | a new lexer starts at byte 0, line 1, with no width history, no tokens and no error |
| AvramxLex.Lexer.Body | avramx/lex/lexer.go:70-72 | the body is the input between start and pos: what follows the text already cut, up to pos |
| AvramxLex.Lexer.Read | avramx/lex/lexer.go:134-151 | at the end: EOF, the history cleared, nothing moved; otherwise the UTF-8 rune at pos, pos moved by its width, the width pushed, and the line counted on exactly for '\n' |
| AvramxLex.Lexer.Backup | avramx/lex/lexer.go:166-178 | with no history nothing happens; otherwise pos steps back by the last width, which is popped, and the line steps back when that byte is '\n' |
| AvramxLex.Lexer.Peek | avramx/lex/lexer.go:155-160 | returns the rune Read would (EOF at the end) with pos and line unchanged; at the end the history is left cleared, as Read's EOF leaves it |
| AvramxLex.Lexer.Emit | avramx/lex/lexer.go:93-105 | queues a token of the given type whose body is the text between start and pos, with the current line, start and span, then starts the next token at pos |
| AvramxLex.Lexer.Drop | avramx/lex/lexer.go:110-112 | discards the text between start and pos and starts the next token at pos, queuing nothing |
| AvramxLex.Lexer.Next | avramx/lex/lexer.go:85-88 | hands out the oldest queued token exactly when one is queued, or reports false, changing nothing else |
| AvramxLex.Lexer.Fail | avramx/lex/lexer.go:120-126 | run records the state function's error, touching nothing else |
| AvramxLex.ReadKeeps | avramx/lex/lexer.go:134-151 | Read keeps the lexer's invariant: the history is a run of decoded runes ending at pos and the line counts the newlines before pos |
| AvramxLex.BackupKeeps | avramx/lex/lexer.go:166-178 | Backup over a rune read after start keeps the invariant, stepping back onto the first byte of that rune |
| AvramxLex.CutKeeps | avramx/lex/lexer.go:93-112 | Emit and Drop keep the invariant: the piece cut is exactly the text from start to pos |
| AvramxLex.NextKeeps | avramx/lex/lexer.go:85-88 | Next keeps the invariant: the token handed out moves from the queue to what was received |
| AvramxLex.LinesAcrossRune | avramx/lex/lexer.go:141-148 | reading a rune adds one to the newline count exactly when it is '\n', which is exactly a one-byte rune whose byte is '\n' |
| AvramxLex.PushWidth | avramx/lex/lexer.go:141-144 | pushing the decoded width keeps the history a chain of runes ending at the new pos |
| AvramxLex.EmitTiles | avramx/lex/lexer.go:93-112 | a piece that continues where the earlier pieces end keeps them tiling the input |
| AvramxLex.TokensAreInputSlices | avramx/lex/lexer.go:93-105 | every emitted token's body is the input between its start and start + span, and it starts where the text before it ends |
| SqlLexer.WidthAt | avramx/lex/lexer.go:134-151 | Read moves at least one byte whenever input is left, and never past the end |
| SqlLexer.KeywordIn | avramx/sql/lexer.go:249-281 | the type is that of a table entry the word spells, or Name exactly when it spells none |
| SqlLexer.Keyword | avramx/sql/lexer.go:249-281 | lexLiteral's switch: the keyword (NULL, TRUE, FALSE, SELECT … AS) the upper-cased body spells, or NAME when it spells none |
| SqlLexer.NonAsciiWordIsName | avramx/sql/lexer.go:249-281 | a word holding a byte at or above 0x80 is a NAME, whatever upper-casing leaves of it |
| SqlLexer.KeywordIgnoresCase | avramx/sql/lexer.go:249 | keywords are case-insensitive: a word and its upper-case spelling get the same type |
| SqlLexer.StringEnd | avramx/sql/lexer.go:201-219 | a string literal ends just past a quote, inside the input |
| SqlLexer.DelimEnd | avramx/sql/lexer.go:232-233 | the loop "read until c" stops just past a byte c |
| SqlLexer.DelimEndFindsFirst | avramx/sql/lexer.go:232-233 | for an ASCII delimiter the loop stops just past the first c; it runs out exactly when no c is left |
| SqlLexer.DelimEndStep | avramx/sql/lexer.go:297-298 | one rune of that loop: the rune is c exactly when its byte is c, which ends the loop one byte on; otherwise the loop goes on from the next rune |
| SqlLexer.CommentEnd | avramx/sql/lexer.go:305-319 | a block comment ends just past a "*/" inside the input |
| SqlLexer.StringEndSkips | avramx/sql/lexer.go:202-218 | a rune other than a quote does not end a string literal |
| SqlLexer.StringEndAtQuote | avramx/sql/lexer.go:209-216 | at a quote the literal ends, unless the next byte is a quote too, when the pair stands for one quote and the literal goes on |
| SqlLexer.CommentEndSkips | avramx/sql/lexer.go:306-318 | a rune that does not start "*/" does not end a block comment |
| SqlLexer.LessSpec | avramx/sql/lexer.go:129-141 | after '<' Lex always emits one token (NEQ, LEQ or LE) and goes on with Lex |
| SqlLexer.GreaterSpec | avramx/sql/lexer.go:142-151 | after '>' Lex always emits one token (GEQ or GE) and goes on with Lex |
| SqlLexer.BangSpec | avramx/sql/lexer.go:152-159 | after '!' Lex either emits NEQ and goes on, or fails without emitting |
| SqlLexer.DashSpec | avramx/sql/lexer.go:160-167 | after '-' Lex hands over to a state function and emits exactly when that is Lex (SUB) |
| SqlLexer.SlashSpec | avramx/sql/lexer.go:168-179 | after '/' Lex hands over to a state function and emits exactly when that is Lex (DIV) |
| SqlLexer.LexSpec | avramx/sql/lexer.go:81-199 | Lex ends within the input, moves on whenever it hands over to another state function, and emits exactly when it hands back to itself |
| SqlLexer.RuneSpec | avramx/sql/lexer.go:84-198 | once the rune is read, Lex emits exactly when it goes on with Lex |
| SqlLexer.OperatorSpec | avramx/sql/lexer.go:129-179 | the cases of runes that may start a two-rune token emit exactly when they go on with Lex |
| SqlLexer.StringSpec | avramx/sql/lexer.go:201-219 | lexString emits one token and hands back to Lex, or stops without emitting, and never moves back |
| SqlLexer.NumberSpec | avramx/sql/lexer.go:221-229 | lexNumber emits one token and hands back to Lex, never moving back |
| SqlLexer.QuotedNameSpec | avramx/sql/lexer.go:231-238 | lexQuotedName emits one token and hands back to Lex, or never returns |
| SqlLexer.LiteralSpec | avramx/sql/lexer.go:240-284 | lexLiteral emits one token and hands back to Lex, never moving back |
| SqlLexer.WhitespaceSpec | avramx/sql/lexer.go:286-294 | lexWhitespace emits one token and hands back to Lex, never moving back |
| SqlLexer.LineCommentSpec | avramx/sql/lexer.go:296-303 | lexLineComment emits one token and hands back to Lex, or never returns |
| SqlLexer.MultiCommentSpec | avramx/sql/lexer.go:305-319 | lexMultiComment emits one token and hands back to Lex, or stops with an error, without emitting |
| SqlLexer.StepSpec | avramx/sql/lexer.go:81-319 | every state function ends within the input; Lex moves on when it hands over; the others hand back to Lex or stop; a token is emitted exactly when the next state is Lex |
| SqlLexer.Tokenize | avramx/lex/lexer.go:114-129 | the reference run of the lexer: the tokens the run loop emits and how it ends; every token lies within the input, after the start of the run |
| SqlLexer.TokenizeUnfold | avramx/lex/lexer.go:114-129 | one turn of the run loop: the state function's token, then the rest of the run, which ends with nil (done), an error (failed) or a state function that never returns (hung) |
| SqlLexer.BodiesAppend | avramx/lex/lexer.go:93-105 | the joined bodies of two runs of tokens are the two joins, one after the other |
| SqlLexer.TokensCoverInput | avramx/sql/lexer.go:81-319 | the lexer drops nothing: the token bodies, in order, are a prefix of the input, and all of it when the run ends normally |
| SqlLexer.TokensAreSlices | avramx/sql/lexer.go:81-319 | every token the run emits is the input between its start and start + span |
| SqlLexer.EmitAs | avramx/lex/lexer.go:93-105 | Emit is the effect of a state function that emits the token and hands back to Lex |
| SqlLexer.ReadRun | avramx/sql/lexer.go:222-225 | "read while f, then back up" leaves the lexer at the end of the run of runes satisfying f |
| SqlLexer.ReadOn | avramx/sql/lexer.go:287-288 | one round of that loop moves on by the rune read and keeps the end of the run in view |
| SqlLexer.BackUpToRunEnd | avramx/sql/lexer.go:287-290 | the Backup after that loop: the rune that ended the run is put back, leaving the lexer at the end of the run |
| SqlLexer.LexNumberFn | avramx/sql/lexer.go:221-229 | lexNumber does what NumberSpec says |
| SqlLexer.LexWhitespaceFn | avramx/sql/lexer.go:286-294 | lexWhitespace does what WhitespaceSpec says |
| SqlLexer.LexLiteralFn | avramx/sql/lexer.go:240-284 | lexLiteral does what LiteralSpec says |
| SqlLexer.Follows | avramx/sql/lexer.go:130-136 | peek and read the next rune exactly when its byte is c, moving one byte exactly then |
| SqlLexer.StringRune | avramx/sql/lexer.go:203-214 | one round of lexString's loop: it runs out at the end, closes the literal where StringEnd says, or goes on with the same end in view |
| SqlLexer.LexStringFn | avramx/sql/lexer.go:201-219 | lexString does what StringSpec says |
| SqlLexer.ReadThrough | avramx/sql/lexer.go:297-298 | "read until c" stops just past the first c, or runs out at the end of the input exactly when no c is left |
| SqlLexer.ReadToward | avramx/sql/lexer.go:297-298 | one round of that loop: EOF only at the end of the input, where no c is left; otherwise one rune on, just past the first c when the rune is c, and with the same first c ahead when it is not |
| SqlLexer.LexQuotedNameFn | avramx/sql/lexer.go:231-238 | lexQuotedName does what QuotedNameSpec says |
| SqlLexer.LexLineCommentFn | avramx/sql/lexer.go:296-303 | lexLineComment as written does what LineCommentSpec says |
| SqlLexer.LexLineCommentToEnd | avramx/sql/lexer.go:296-303 | the corrected lexLineComment does what LineCommentToEndSpec says: a comment on the last line ends with the input |
| SqlLexer.LineCommentToEndAgrees | avramx/sql/lexer.go:296-303 | both comment lexers agree when a '\n' follows; otherwise the written one never returns, while the corrected one emits a Comment up to the end, after which Lex stops |
| SqlLexer.TrailingCommentHangs | avramx/sql/lexer.go:296-303 | on "-- note" the run as written emits nothing and never ends; the corrected comment lexer emits the whole comment |
| SqlLexer.CommentRune | avramx/sql/lexer.go:307-317 | one round of lexMultiComment's loop: it runs out at the end, closes the comment where CommentEnd says, or goes on with the same end in view |
| SqlLexer.LexMultiCommentFn | avramx/sql/lexer.go:305-319 | lexMultiComment does what MultiCommentSpec says |
| SqlLexer.LexLess | avramx/sql/lexer.go:129-141 | the '<' case does what LessSpec says |
| SqlLexer.LexGreater | avramx/sql/lexer.go:142-151 | the '>' case does what GreaterSpec says |
| SqlLexer.LexBang | avramx/sql/lexer.go:152-159 | the '!' case does what BangSpec says |
| SqlLexer.LexDash | avramx/sql/lexer.go:160-167 | the '-' case does what DashSpec says |
| SqlLexer.LexSlash | avramx/sql/lexer.go:168-179 | the '/' case does what SlashSpec says |
| SqlLexer.LexFn | avramx/sql/lexer.go:81-199 | Lex does what LexSpec says |
| SqlLexer.LexRune | avramx/sql/lexer.go:84-198 | the switch on the rune read does what LexSpec says |
| SqlLexer.LexOperator | avramx/sql/lexer.go:129-179 | the cases of runes that may start a two-rune token do what OperatorSpec says |
| SqlLexer.Step | avramx/lex/lexer.go:121 | calling a state function does what StepSpec says of it |
| SqlLexer.StepKeepsRun | avramx/lex/lexer.go:114-129 | a state function that does what its specification says keeps the run loop on course: tokens emitted so far plus those still to come stay the same |
| SqlLexer.RunStep | avramx/lex/lexer.go:120-127 | one round of the run loop keeps the run on course and leaves the error alone |
| SqlLexer.Run | avramx/lex/lexer.go:114-129 | the run loop queues exactly the tokens Tokenize gives, records Tokenize's error, and reports a state function that never returns |
| SqlLexer.NewSqlLexer | avramx/lex/lexer.go:31-41 | NewLexer(Lex, input) queues exactly Tokenize's tokens from the start and records its error |
| SqlLexer.SkipWhiteSpace | avramx/sql/lexer.go:67-72 | yields the tokens of it without the WHITESPACE ones, in order |
| SqlLexer.SkipComments | avramx/sql/lexer.go:74-79 | yields the tokens of it without the COMMENT ones, in order |
| SqlLexer.SkipBoth | avramx/sql/lexer.go:67-79 | skipping whitespace then comments is one filter that keeps, in order, exactly the tokens that are neither |
| Errors.Flatten | avramx/alternatives.go:26 | an error that is not a combination stands for itself alone |
| Errors.Combine | avramx/alternatives.go:26 | multierr.Combine of two errors lists the errors of the first and then those of the second |
| Errors.Append | avramx/alternatives.go:50 | multierr.Append onto nothing is the error itself; onto an accumulated error it lists the accumulated errors and then the new ones |
| Errors.AppendOptional | scanner.go:152 | multierr.Append of a nil error keeps the first error unchanged; otherwise it lists both |
| Errors.AppendAccumulates | avramx/alternatives.go:43-53 | appending errors one after another, as Choice's loop does, accumulates exactly the flattened errors of each, in order |
| Replies.FromFallible | avramx/lift.go:14 | returning a Go function's (value, error) pair: success with the value exactly when the error is nil, the error otherwise, state untouched |
| Utf8.Decode | scanner.go:60 | utf8.DecodeRuneInString: one to four bytes, ASCII as itself, a multi-byte rune made of a leading byte and continuation bytes, and '\n' only as the single byte '\n' |
| Utf8.RunEnd | text.go:138-143 | the end of the longest run of runes satisfying f: everything up to it satisfies f and the rune there does not |
| Utf8.RunEndStep | text.go:138-143 | one rune further: a rune satisfying f extends the run; one that does not ends it there |
| Utf8.AllSatisfyExtend | text.go:138-143 | a run of runes satisfying f extends by one more such rune |
| Utf8.RunEndUnique | text.go:138-143 | a run satisfying f that cannot be extended ends exactly where RunEnd says |
| Utf8.Newlines | scanner.go:65-67 | the count of '\n' bytes is at most the length |
| Utf8.NewlinesAppend | scanner.go:65-67 | counting newlines distributes over concatenation |
| Utf8.NewlinesOfRune | scanner.go:60-67 | the bytes of one rune hold a '\n' exactly when the rune is '\n' |
| Utf8.NoNewlines | scanner.go:65-67 | bytes without '\n' count no newline |
| UnicodeClasses.UpperByte | avramx/sql/lexer.go:249 | ASCII upper-casing of one byte, in place of strings.ToUpper: ASCII lower-case letters go up by 32, every other byte stays |
| UnicodeClasses.UpperAscii | avramx/sql/lexer.go:249 | ASCII upper-casing of a word, in place of strings.ToUpper: the length is kept and each byte maps as UpperByte does |
| UnicodeClasses.UpperAsciiIdempotent | avramx/sql/lexer.go:249 | upper-casing twice changes nothing more |
| UnicodeClasses.Ascii | avramx/sql/lexer.go:251-278 | the bytes of an ASCII keyword are its characters, one for one |
| AvramScanner.NewScan | scanner.go:17-21 | a new scanner is at byte 0 of the input with no width history and the line count at 0 |
| AvramScanner.Restore | parser.go:33-46 | putting the position back to a checkpoint keeps the input, the width history and the line count |
| AvramScanner.ReadRuneStep | scanner.go:53-70 | fails with EOF exactly at the end, clearing the history; otherwise answers the UTF-8 rune at pos, moves past it, pushes its width and counts the newlines it covered |
| AvramScanner.UnreadStep | scanner.go:77-88 | fails with "no runes to unread" exactly when the history is empty; otherwise pops the last width and steps back by it, the line count untouched |
| AvramScanner.ReadThenUnread | scanner.go:53-88 | an unread right after a read succeeds and restores the position and the history; only the line count keeps the '\n' read |
| AvramScanner.MatchFrom | scanner.go:124-135 | the loop answers the target on success without moving back, and on failure puts the position back at the checkpoint |
| AvramScanner.MatchFromUnfold | scanner.go:124-135 | one round of the loop: EOF or a mismatching rune puts the position back and fails (with the read's error or "does not contain"); a matching rune goes on with the next rune of the target |
| AvramScanner.MatchStringStep | scanner.go:121-138 | MatchString answers the target on success and never moves back; a failure leaves the position where it was |
| AvramScanner.MatchStringAscii | scanner.go:121-138 | for an ASCII target MatchString succeeds exactly when the input holds the target at the position, and moves just past it |
| AvramScanner.MatchFromAscii | scanner.go:124-135 | the loop from the i-th byte of an ASCII target succeeds exactly when the input holds the rest of the target there |
| AvramScanner.HoldsAtShift | scanner.go:124-135 | a matching byte shifts the comparison one byte on |
| AvramScanner.MatchRuneStep | scanner.go:145-156 | succeeds exactly when a rune is left and accept takes it, moving past it; a rejected rune is unread and accept's error returned; EOF at the end |
| AvramScanner.MatchRuneMovesOneRune | scanner.go:145-156 | MatchRune moves exactly one rune or not at all |
| AvramScanner.Scanner.constructor | scanner.go:17-21 | NewScanner's object has the state NewScan of the input |
| AvramScanner.Scanner.ReadRune | scanner.go:53-70 | updates the fields in place exactly as ReadRuneStep says, returning the rune and its width, or -1, -1 and EOF |
| AvramScanner.Scanner.UnreadRune | scanner.go:77-88 | updates the fields in place exactly as UnreadStep says |
| AvramScanner.Scanner.MatchString | scanner.go:121-138 | the loop updates the fields exactly as MatchStringStep says and returns its value or error |
| AvramScanner.Scanner.MatchRune | scanner.go:145-156 | updates the fields exactly as MatchRuneStep says, returning the rune, or -1 and the error |
| AvramScanner.Scanner.Remaining | scanner.go:159-161 | the unread rest of the input: exactly the bytes from pos on |
| AvramParser.Name | parser.go:17-27 | the same state and outcome as p; only a failure's error is wrapped with the name |
| AvramParser.Try | parser.go:33-46 | p's success as it is; p's failure with the position (and only the position) put back |
| AvramParser.TryFailsInPlace | parser.go:33-46 | a failure of Try consumes nothing, and Try succeeds exactly when p does |
| AvramParser.TryIdempotent | parser.go:33-46 | trying twice is trying once |
| AvramParser.Maybe | parser.go:54-64 | never fails; Some of p's value where p stopped, or None with the position put back |
| AvramParser.LookAhead | parser.go:69-78 | p's outcome, value and error, with the position put back in both cases |
| AvramParser.Return | parser.go:82-86 | succeeds with the value, consuming nothing |
| AvramParser.Fail | parser.go:90-94 | fails with the error, consuming nothing |
| AvramParser.Bind | parser.go:98-108 | p's failure stops the chain where p stopped; its success continues with f of the value from p's end |
| AvramParser.DiscardLeft | parser.go:112-121 | is Bind with a function ignoring p's value; it never moves back when p and q do not, and consumes whenever q does |
| AvramParser.DiscardRight | parser.go:125-140 | is p, then q, then Return of p's value |
| AvramParser.Wrap | parser.go:144-149 | is left, p, right in sequence, answering p's value |
| AvramParser.BindLaws | parser.go:82-108 | Return is a left and right identity of Bind, and Bind is associative |
| AvramParser.Finish | scanner.go:165-180 | succeeds exactly when p succeeds having consumed the whole input; p's value then, p's error, or "unparsed input" with the rest |
| AvramParser.Location | scanner.go:185-199 | p's outcome, its value combined by f with the positions p started and stopped at |
| AvramAlternatives.Or | alternatives.go:12-27 | p's success as it is; otherwise q's reply from where p started; when both fail the errors of p and q combined, with the position back where Or started |
| AvramAlternatives.OrStep | alternatives.go:13-26 | the function Or puts under Try keeps the input |
| AvramAlternatives.OrFailsInPlace | alternatives.go:12-27 | Or fails exactly when both alternatives fail, and then consumes nothing and lists p's errors then q's |
| AvramAlternatives.OrCommitted | alternatives_test.go:53-68 | committed choice, as the test "p consumes input" expects: a p that fails after consuming fails the choice with its own error, and q runs only after p failed in place |
| AvramAlternatives.OrCommittedAgrees | alternatives.go:12-27 | Or and committed choice succeed together, with the same value, unless p fails after consuming |
| AvramAlternatives.ReadThenFail | alternatives_test.go:55-62 | the test's p always fails; with input left it consumes and fails with its message |
| AvramAlternatives.ReadThenFailOnTestInput | alternatives_test.go:55-62 | on "input" the test's p consumes one byte and fails with "p consumes input" |
| AvramAlternatives.OrRetriesConsumed | alternatives.go:12-27 | Or rewinds a p that failed after consuming and lets an always-succeeding q answer from the start; committed choice keeps p's failure |
| AvramAlternatives.OrConsumedDisagrees | alternatives_test.go:53-68 | on "input" Or answers 1 at position 0, where the test expects p's error; committed choice gives that error |
| AvramAlternatives.ChoiceFrom | alternatives.go:34-44 | the loop fails only with exactly msg, back at the starting position |
| AvramAlternatives.Choice | alternatives.go:33-45 | fails only with exactly msg (the alternatives' errors dropped) at the starting position |
| AvramAlternatives.ChoiceAt | alternatives.go:35-36 | every alternative starts at Choice's starting position |
| AvramAlternatives.ChoiceWinner | alternatives.go:33-45 | a success is the reply of some alternative tried from the start, every earlier alternative having failed: the first that succeeds wins |
| AvramAlternatives.ChoiceAllFail | alternatives.go:33-45 | when Choice fails every alternative has failed |
| AvramAlternatives.ChoiceOfTwo | alternatives.go:12-45 | Choice of two agrees with Or on success and on the failing state; only the error differs, msg instead of both errors |
| AvramAlternatives.RunChoice | alternatives.go:33-45 | the for loop computes exactly Choice |
| AvramLift.Yield | lift.go:46 | the final `return f(...)`: consumes nothing and succeeds with the value exactly when the error is nil |
| AvramLift.Lift | lift.go:38-48 | Lift(f, p) is p bound to the parser answering f's (value, error) pair |
| AvramLift.Lift2 | lift.go:51-71 | Lift2 is p1 then p2 then f's pair, the first failure stopping the chain |
| AvramLift.Lift3 | lift.go:74-101 | the same chain for three parsers |
| AvramLift.Lift4 | lift.go:104-138 | the same chain for four parsers |
| AvramLift.LiftTotal | lift.go:38-48 | lifting an Error-wrapped function fails exactly when p fails and otherwise maps p's value, where p stopped |
| AvramLift.Lift2Total | lift.go:51-71 | lifting an Error2-wrapped function fails exactly when one of the parsers fails, and otherwise answers f of both values |
| AvramLift.Lift3Total | lift.go:74-101 | the same for Error3 and three parsers |
| AvramLift.Lift4Total | lift.go:104-138 | the same for Error4 and four parsers |
| AvramLift.Lift2FunctionError | lift.go:51-71 | an error of f surfaces only once both parsers have succeeded, where the second stopped |
| AvramPair.MakePair | pair.go:12-17 | the pair's Left is a and its Right is b |
| AvramPair.MakePairOfFields | pair.go:5-17 | MakePair of a pair's two fields is that pair |
| AvramPair.PairEquality | pair.go:5-17 | two pairs are equal exactly when both their fields are |
| AvramPair.MakePairNested | pair.go:12-17 | nested pairs keep each component where it was put |
| AvramLazy.Must | lazy.go:15-24 | Must(f) answers f's value wherever f reports no error |
| AvramLazy.MustOfError | lazy.go:15-24 | Must undoes Error: a total function wrapped and unwrapped is itself |
| AvramLazy.Prepend | lazy.go:26-28 | prepend's slice starts with the given element and goes on with exactly the given rest |
| AvramLazy.Negate | lazy.go:30-34 | negate(f) holds exactly where f does not |
| AvramLazy.NegateTwice | lazy.go:30-34 | negating twice agrees with f everywhere |
| AvramCombinators.PrefixedByNothing | combinators.go:90-96 | putting no values in front of a reply changes nothing |
| AvramCombinators.PrefixedByTwice | combinators.go:90-96 | putting values in front twice is putting their concatenation in front once |
| AvramCombinators.Option | combinators.go:9-18 | never fails; p's value where p stopped, or the fallback without rewinding what a failed p consumed |
| AvramCombinators.OptionAgainstOr | combinators.go:9-18 | Option(x, p) and Or(p, Return(x)) give the same value; only Or rewinds a failed p |
| AvramCombinators.Both | combinators.go:21-32 | succeeds exactly when p and then q succeed, with the pair of their values; otherwise the first failure; consumes whenever q does |
| AvramCombinators.ListFrom | combinators.go:37-49 | the loop keeps the input and answers one value per parser on success |
| AvramCombinators.List | combinators.go:36-50 | one value per parser on success; an empty list succeeds with nothing, consuming nothing |
| AvramCombinators.ListCons | combinators.go:36-50 | a list of parsers is its head then the list of the rest, the values joined by prepend |
| AvramCombinators.RunList | combinators.go:36-50 | the for loop computes exactly List |
| AvramCombinators.CountFrom | combinators.go:55-67 | the loop answers exactly n values on success and never moves back when p does not |
| AvramCombinators.Count | combinators.go:54-68 | exactly n values on success, none (consuming nothing) for a non-positive n; never moves back when p does not |
| AvramCombinators.Copies | combinators.go:54-68 | n copies of the same parser |
| AvramCombinators.CountIsList | combinators.go:36-68 | Count(n, p) behaves as List of n copies of p |
| AvramCombinators.RunCount | combinators.go:54-68 | the for loop computes exactly Count |
| AvramCombinators.ManyFrom | combinators.go:73-85 | the loop never fails, never moves back, and each value stands for at least one consumed byte |
| AvramCombinators.Many | combinators.go:72-86 | never fails, never moves back, no more values than bytes consumed |
| AvramCombinators.RunMany | combinators.go:72-86 | the loop over Try(p) computes exactly Many |
| AvramCombinators.ManyStep | combinators.go:77-84 | one turn: a failing p stops with nothing, back where it started; a succeeding p puts its value in front of the repetition from where it stopped |
| AvramCombinators.Many1 | combinators.go:90-96 | succeeds exactly when p does, with p's value followed by Many(p)'s; p's failure otherwise; always consumes on success |
| AvramCombinators.ManyIsMany1OrEmpty | combinators.go:72-96 | Many(p) is exactly Or(Many1(p), Return([])) |
| AvramCombinators.ManyTillFrom | combinators.go:101-116 | the loop keeps the input |
| AvramCombinators.ManyTill | combinators.go:100-117 | a success of e ends with no more values; after a failed e, p runs from where e stopped and the loop repeats; p's failure fails it |
| AvramCombinators.RunManyTill | combinators.go:100-117 | the for loop computes exactly ManyTill |
| AvramCombinators.SepBy1 | combinators.go:128-134 | succeeds exactly when p does: p's value, then the values of as many "sep then p" as succeed |
| AvramCombinators.SepBy | combinators.go:120-125 | never fails; SepBy1 when p succeeds, otherwise no values with the position put back |
| AvramCombinators.SkipMany | combinators.go:137-142 | never fails and ends where Many(p) ends |
| AvramCombinators.SkipMany1 | combinators.go:145-150 | succeeds exactly when p does, ending where Many(p) ends after it |
| AvramCombinators.FixRun | combinators.go:155-170 | a run of the fixed point keeps the input |
| AvramCombinators.Fix | combinators.go:155-170 | the fixed-point parser runs as FixRun at every state |
| AvramCombinators.FixUnfolds | combinators.go:152-170 | for a grammar whose recursive references sit behind consumed input, Fix(f) is a fixed point of f |
| AvramCombinators.FixCell.constructor | combinators.go:155-160 | the closure starts with f kept and not yet built |
| AvramCombinators.FixCell.Run | combinators.go:161-167 | the sync.Once builds f(Fix(f)) exactly once, and every run answers as f(Fix(f)) |
| AvramCombinators.ChainFrom | combinators.go:199-210 | chain(acc) never fails and never moves back |
| AvramCombinators.Chain | combinators.go:199-210 | chain(acc) runs as ChainFrom at every state |
| AvramCombinators.ChainIsGoChain | combinators.go:199-210 | Chain is exactly the Or(Try(Lift2(apply to acc, op, Bind(p, chain))), Return(acc)) that Go builds |
| AvramCombinators.ChainL1 | combinators.go:197-213 | as written: succeeds exactly when the first operand does, then goes on with chain of its value; the first failure otherwise |
| AvramCombinators.ChainIsFoldRight | combinators.go:197-213 | as written, the operator/operand pairs are those of Many(Both(op, p)), folded from the right: 1+2*3+4 is 1+(2*(3+4)) |
| AvramCombinators.ChainLeftFrom | combinators.go:172-174 | the documented loop never fails and keeps the input |
| AvramCombinators.ChainL1Left | combinators.go:172-174 | corrected: succeeds exactly when the first operand does; the first failure otherwise |
| AvramCombinators.ChainLeftIsFoldLeft | combinators.go:172-174 | the corrected ChainL1 folds the same pairs from the left: 1+2*3+4 is ((1+2)*3)+4 |
| AvramCombinators.RunChainL1Left | combinators.go:172-174 | the corrected loop computes exactly ChainL1Left |
| AvramCombinators.ChainL1Disagrees | combinators_test.go:337-344 | on "1+2*3+4" the written ChainL1's fold gives 15, the corrected one 13, the value the test expects |
| AvramCombinators.FoldsAgreeWhenAssociative | combinators.go:172-213 | with one associative operator the two folds agree, which is why chains of only + or only * come out right |
| AvramCombinators.FoldLeftShift | combinators.go:172-174 | for an associative operator, a left fold from f(a, b) is f(a, fold from b) |
| AvramText.MatchString | text.go:18-22 | the scanner's MatchString as a parser: the target on success, nothing consumed on failure, never moving back |
| AvramText.MatchStringHolds | text.go:18-22 | for an ASCII target it succeeds exactly when the next bytes of the input are the target, and moves just past them |
| AvramText.MatchRune | scanner.go:145-156 | the scanner's MatchRune as a parser: it never moves back and always consumes on success |
| AvramText.Rune | text.go:52-62 | never moves back and always consumes on success |
| AvramText.RuneReads | text.go:52-62 | accepts exactly the rune want, moving past it; otherwise "expected want", or EOF at the end, with nothing consumed |
| AvramText.Range | text.go:78-88 | never moves back and always consumes on success |
| AvramText.RangeReads | text.go:78-88 | accepts exactly the runes from lo to hi inclusive; otherwise an error naming the rune and the bounds, or EOF, with nothing consumed |
| AvramText.NotRune | text.go:92-102 | never moves back and always consumes on success |
| AvramText.NotRuneReads | text.go:92-102 | accepts every rune but r; on r "unexpected r", or EOF at the end, with nothing consumed |
| AvramText.Satisfy | text.go:114-124 | never moves back and always consumes on success |
| AvramText.SatisfyReads | text.go:114-124 | accepts exactly the runes f accepts; otherwise an error naming the rune, or EOF, with nothing consumed |
| AvramText.RuneIsSatisfy | text.go:52-62 | Rune(want) succeeds and moves exactly as Satisfy of equality with want |
| AvramText.AnyRune | text.go:105-108 | never moves back and always consumes on success |
| AvramText.AnyRuneReads | text.go:105-108 | fails only at the end of input, with EOF; otherwise reads the next rune |
| AvramText.Runes | text.go:65-75 | the loop builds a set whose membership test holds exactly for the runes given |
| AvramText.Skip | text.go:129-134 | succeeds, fails and moves exactly as Satisfy(f), with the rune dropped |
| AvramText.ManySatisfyRunEnd | text.go:140 | Many(Satisfy(f)) stops exactly at the end of the longest run of runes f accepts |
| AvramText.RunEndAfterRune | text.go:138-143 | a run that starts with an accepted rune ends where the run after that rune ends |
| AvramText.SkipWhile | text.go:138-143 | never fails and skips exactly the longest run of runes f accepts |
| AvramText.Consumed | text.go:194-204 | p's outcome and state; on success the value is exactly the input p moved over |
| AvramText.RunesEnd | text.go:147-149 | n more runes end within the input, and zero runes end where they start |
| AvramText.CountAnyRune | text.go:148 | Count(n, AnyRune) reads exactly n runes when the input has them, and fails with EOF otherwise |
| AvramText.Take | text.go:147-149 | succeeds exactly when n more runes exist (none for a non-positive n), with their bytes, moving past them; EOF otherwise |
| AvramText.TakeWhile | text.go:157-159 | never fails and never moves back |
| AvramText.TakeWhileReads | text.go:157-159 | returns, and moves past, exactly the longest run of runes f accepts |
| AvramText.TakeWhile1 | text.go:167-169 | never moves back |
| AvramText.TakeWhile1Reads | text.go:167-169 | fails exactly when no accepted rune comes next, consuming nothing; otherwise reads as TakeWhile |
| AvramText.TakeTill | text.go:173-175 | never fails and never moves back |
| AvramText.TakeTillReads | text.go:173-175 | returns the bytes up to the first rune f accepts, all of whose runes f rejects, stopping there or at the end |
| AvramText.TakeTill1 | text.go:180-190 | is TakeTill with the check that something was taken |
| AvramText.RequireNonEmpty | text.go:181-189 | Assert's check: success exactly when at least one byte was taken; the fixed message when none was |
| AvramText.TakeTill1Fails | text.go:180-190 | TakeTill1 succeeds exactly when a rune is left and f rejects it |
| AvramText.Position | text.go:207-209 | answers the position, within the input, consuming nothing |
| AvramText.Input | text.go:213-215 | always succeeds, consuming nothing |
| AvramText.Remaining | text.go:220-222 | always succeeds, consuming nothing, with as many bytes as are left |
| AvramText.InputSplitsAtPosition | text.go:207-222 | the input is what lies before Position followed by Remaining |
| AvramText.ConsumedThenRemaining | text.go:194-222 | what a forward parser consumed followed by what then remains is what remained before it |
| AvramText.ConsumedIsLocation | text.go:194-204 | Consumed(p) answers what Location(p) answers when handed the slice between the two positions |
| AvramText.Space | text.go:25 | succeeds exactly on a whitespace rune, which it consumes |
| AvramText.SkipSpace | text.go:30 | the state past all the whitespace from here |
| AvramText.SkipWS | text.go:29-31 | p's outcome after all leading whitespace, then all trailing whitespace skipped on success |
| AvramText.TrailingWS | text.go:38-40 | succeeds exactly when p succeeds and at least one whitespace rune follows, with p's value |
| AvramText.TrailingWSSkipsAll | text.go:38-40 | after success the position is past all the whitespace following p |
| AvramText.PrecedingWS | text.go:47-49 | fails as Space does when no whitespace comes first; otherwise runs p after all of it |
| AvramText.PrecedingWSSkipsAll | text.go:47-49 | runs p exactly past the leading whitespace |
| ResultValue.Unwrap | result/result.go:18-20 | Unwrap returns exactly the stored value and error |
| ResultValue.Wrap | result/lift.go:7-11 | building a result from a (value, error) pair: unwrapping it gives the pair back |
| ResultValue.WrapUnwrap | result/result.go:13-20 | wrapping what Unwrap returns rebuilds the same result: the two are inverse |
| ResultValue.Flatten | result/result.go:23-32 | an outer error is kept, with the zero value; otherwise the inner result itself |
| ResultValue.FlattenErrors | result/result.go:23-32 | the flattened result holds an error exactly when either level does, the outer one taking precedence |
| ResultValue.UnwrapZero | result/result.go:37-45 | the value when there is no error, the zero value when there is |
| ResultValue.UnwrapOr | result/result.go:50-57 | the value when there is no error, the fallback when there is |
| ResultValue.UnwrapZeroIsUnwrapOr | result/result.go:37-57 | UnwrapZero is UnwrapOr with the zero value as fallback |
| ResultValue.FlattenOfOk | result/result.go:23-57 | flattening an error-free wrapping gives the inner result back; a wrapping that holds an error unwraps to the fallback whatever it held |
| ResultMap.Map | result/map.go:6-24 | an error in res is passed on with the zero value and f is not applied; otherwise the result is exactly f's value and error |
| ResultMap.MapTotal | result/map.go:6-24 | mapping a total function never adds an error, and maps the value |
| ResultMap.MapIdentity | result/map.go:6-24 | mapping the error-free identity keeps the error and what UnwrapOr sees |
| ResultMap.MapComposes | result/map.go:6-24 | two Maps in a row are one Map of the two functions chained, stopping at the first error |
| ResultLift.Lift | result/lift.go:5-13 | unwrapping the lifted function's result gives exactly f's (value, error) pair |
| ResultLift.Lift2 | result/lift.go:16-24 | the same for two arguments |
| ResultLift.Lift3 | result/lift.go:27-35 | the same for three arguments |
| ResultLift.Lift4 | result/lift.go:38-46 | the same for four arguments |
| ResultLift.MapAfterLift | result/lift.go:5-13 | mapping g over a lifted f is g after f, unless f failed, whose error is then kept |
| ResultParser.Unwrap | result/parser.go:8-18 | p's state; success exactly when p succeeds with a result holding no error, answering its value; otherwise p's error or the result's error |
| ResultParser.UnwrapLiftIsLift | result/parser.go:8-18 | unwrapping Lift of result.Lift(f) over p answers exactly as lifting f over p directly |

## Left out

- ChannelIterator (avramx/iterator.go:19-27) and the lexer's goroutine and unbuffered channel are concurrency. Their sources are finite sequences. `Next` pops the lexer's queue of emitted tokens, and the state functions run to completion before any token is taken (`SqlLexer.NewSqlLexer`).
- MatchRegexp (scanner.go:97-113, text.go:11-15) calls Go's regular-expression engine. It is not part of this model.
- UnicodeClasses.IsDigit, UnicodeClasses.IsLetter: `unicode.IsDigit` and `unicode.IsLetter` are exact only on Latin-1 (code points below 256). Above that they answer false, because the Unicode tables are not part of this model. `IsSpace` is complete.
- UnicodeClasses.UpperByte, UnicodeClasses.UpperAscii: these upper-case ASCII letters only, where `strings.ToUpper` (avramx/sql/lexer.go:249) works on runes. Go turns "é" into "É" and an invalid byte into the three bytes of U+FFFD, and neither of these keeps the length. `Keyword` still gives Go's type on every word the model lexes, because every keyword is ASCII. Such a word is a run of ASCII letters and digits, `_` and Latin-1 letters, and Go upper-cases no Latin-1 letter into ASCII. So a word with a byte at or above 0x80 is a NAME both in Go and in the model (`SqlLexer.NonAsciiWordIsName`). The runes that Go does upper-case into ASCII lie outside Latin-1, such as "ſ" to "S" and "ı" to "I". The model's `IsLetter` does not count them as word runes (see the line above).
- avramx/sql/values.go (float parsing), avramx/sql/parse.go and avramx/sql/qir are not part of this model.
- Error texts are not formatted. Each error is a constructor holding what Go formats into its message: the rune, the bounds, the name, the wrapped errors. multierr's combined errors are kept as their flattened lists.
- Go's nil and empty slices are both `[]`. The lexer's width history is the one exception, because there `Backup` behaves differently on the two (`AvramxLex.Widths`).
- Only the `result` struct is modelled, not the open `Result` interface (result/result.go:9-11).
- Go's zero values are explicit parameters (`zero` in ResultValue.Flatten, ResultValue.UnwrapZero, ResultMap.Map). A failed parser's reply carries no value at all.
- Positions and line counts are unbounded integers. Go's `int` overflow is not modelled.
- The root scanner's `start` field is never read or written by the code, and is left out.
- AvramLazy.Must: Go panics where `f` reports an error. The model's `Must(f)` is a partial function that is defined exactly where `f` succeeds.
- AvramScanner.UnreadStep, AvramScanner.Scanner.UnreadRune: these require the last width to fit before the position (`CanUnread`). `Try` rewinds the position but not the width history, so Go can move `pos` below zero here and panic on the next slice.
- AvramText.Consumed: requires a parser that never moves backwards. Go's `input[start:pos]` would panic otherwise.
- AvramCombinators.Many, AvramCombinators.Many1, AvramCombinators.SepBy, AvramCombinators.SepBy1, AvramCombinators.SkipMany, AvramCombinators.SkipMany1: these require a `p` that consumes on success, and SepBy and SepBy1 also a `sep` that never moves backwards. Otherwise the Go loop need not end.
- AvramxCombinators.Many, AvramxCombinators.Many1, AvramxCombinators.SepBy, AvramxCombinators.SepBy1, AvramxCombinators.SkipMany, AvramxCombinators.SkipMany1: the same requirement, for the same reason.
- AvramCombinators.ManyTill, AvramxCombinators.ManyTill: these also require an `e` that never moves backwards, so that the loop's progress can be measured.
- AvramCombinators.ChainL1, AvramxCombinators.ChainL1, AvramxCombinators.ChainR1: these require an operand parser that consumes on success and an operator parser that never moves backwards. Otherwise the Go recursion or loop need not end.
- AvramCombinators.Fix, AvramxCombinators.Fix: a recursive call that has consumed nothing fails with `LeftRecursion`, where Go recurses until the stack overflows. `FixUnfolds` proves Fix(f) is a fixed point of f for grammars whose recursive references follow consumed input. The `sync.Once` is the `FixCell` class, whose ghost counter records that `f` is called once.
- SqlLexer.LexQuotedNameFn, SqlLexer.LexLineCommentFn: without a closing `"` or a `'\n'` the Go loop reads EOF forever. The model returns the outcome `Spin`, and the run ends `Hung`.
- AvramxLex.Lexer.Backup: requires a non-empty history whose last rune was read after `start`. Go indexes out of range on an emptied history, and lets `pos` fall before `start`, so that `Body` would panic.
- AvramText.TakeTill1: the root package has no `Assert`. Its check is the `avramx` `Assert` on the value `TakeTill` returns (`RequireNonEmpty`).
- AvramCombinators.Both, AvramCombinators.Many1, AvramCombinators.SepBy1, AvramCombinators.ListCons: the root call sites hand `Lift2` functions that return no error (`prepend`, the pair builder). The model wraps them with `Error2`, as `lift.go` intends.
- `prepend` is declared in both lazy.go and combinators.go, and `negate` in both lazy.go and text.go. Each is modelled once (`AvramLazy.Prepend`, `AvramLazy.Negate`).
- ResultParser.UnwrapLiftIsLift: the ChainL1 documentation passes `result.Lift(strconv.Atoi)` straight to `Lift`. The model wraps it with `Error` so that the types agree.

## Findings

| source | as written | input that shows it | evidently intended | confidence | as-written member | corrected member |
|---|---|---|---|---|---|---|
| combinators.go:197-213 | `chain(acc)` applies each operator to `acc` and to the whole rest of the chain, so operands associate to the right | `1+2*3+4` with `+` and `*`: 1+(2*(3+4)) = 15 | left association, ((1+2)*3)+4 = 13, as the comment at combinators.go:172-174 and the test at combinators_test.go:337-344 say | not executed | AvramCombinators.ChainIsFoldRight, AvramCombinators.ChainL1Disagrees | AvramCombinators.ChainL1Left, AvramCombinators.ChainLeftIsFoldLeft |
| alternatives.go:12-27 | `Or` wraps `p` in `Try`, so a `p` that fails after consuming input is rewound and `q` runs from the start | the test "p consumes input" on "input": `p` reads a rune and fails, `q` answers 1, and `Or` succeeds with 1 at position 0 | committed choice, as the test at alternatives_test.go:53-68 expects: `p`'s error, with `q` not tried. The comment at alternatives.go:9-11 sides with the code, so which of the two is intended is open | not executed | AvramAlternatives.OrRetriesConsumed, AvramAlternatives.OrConsumedDisagrees | AvramAlternatives.OrCommitted, AvramAlternatives.OrCommittedAgrees |
| avramx/combinators.go:102-119 | a failed attempt of `e` is not rewound, so `p` resumes after the element `e` rejected | tokens hello, hello, world with `p` = Match("hello") and `e` = Match("world"): the result is [hello] | [hello, hello], as the test at avramx/combinators_test.go:293-297 expects: `e` only looks for the terminator | not executed | AvramxCombinators.ManyTillSkipsTerminatorAttempts | AvramxCombinators.ManyTillRewind, AvramxCombinators.ManyTillRewindKeepsAll |
| avramx/sql/lexer.go:296-303 | `for l.Read() != '\n' {}` never ends when the comment is on the last line, because `Read` returns EOF forever | `-- note` with no newline: the run never ends and yields no token | the comment ends with the input, is emitted as COMMENT, and `Lex` then stops | not executed | SqlLexer.TrailingCommentHangs | SqlLexer.LexLineCommentToEnd, SqlLexer.LineCommentToEndAgrees |

`AvramAlternatives.Or` keeps the code's rewinding, and the rest of the root engine is built on it. `SqlLexer.Tokenize` and `SqlLexer.Run` keep the written `lexLineComment`, so they say what the code does. `SqlLexer.LineCommentToEndAgrees` shows that the two comment lexers differ only when no `'\n'` follows the comment.
