# Monkey front end in Dafny

This project models the front end of a small interpreter for the Monkey
language, written in Rust. It has three parts:

- **Scanner (`src/lexer.rs`).** A cursor over the source text (`pos`,
  `read_pos`, `ch`) that yields one token per `next_token` call. It has one
  character of lookahead (`peek_char`), maximal identifier and digit runs,
  and a keyword lookup.
- **Statement parser (`src/parser.rs`).** It keeps two tokens of lookahead
  (`cur`, `peek`) and an append-only error list. `expect_peek` checks the
  next token. A malformed `let` becomes `Bad`, and recovery skips to the
  next `;`. The `Display` impls render the syntax tree.
- **Keyword table (`src/token.rs`).**

The model is in six modules:

| module (file) | what it holds |
|---|---|
| `Tokens` (token.dfy) | the token kinds, `Token = (kind, literal)`, and `LookupKind`, the keyword table |
| `Lexer` (lexer.dfy) | the pure scanner `Step` / `TokensFrom`, and the class `Lexer` whose methods are proved against it |
| `Ast` (ast.dfy) | the syntax tree and its rendering |
| `Parser` (parser.dfy) | the pure parser `LetSpec` / `ReturnSpec` / `ParseFrom`, and the class `Parser` over a live `Lexer`, proved against it |
| `RoundTrip` (roundtrip.dfy) | for any program of well-named `let` and `return` statements: its rendering scans to the expected tokens, and `parse` reads them back as the same program |
| `Examples` (examples.dfy) | the inputs of the source's unit tests and what those tests expect |

The scanner's panics are modelled as a `Fault` in a `Result`, not removed:
- `peek_char` on the last character (`read_pos == len`);
- the `==` / `!=` literal slice, which starts at `pos - 2`, at offset 0.

The `==` / `!=` literal is modelled as the code slices it: from the
character before the operator through its first character (for `a ==`, the
literal is ` =`). It is not `"=="`. The parser's skip-to-`;` loops do not
stop at `Eof`. The pure parser says `Diverges` when no `;` remains, and the
methods require that it does not.

The source's `token.rs` defines a payload-carrying `Token` enum and a
`lookup_ident` over it. `lexer.rs` and `parser.rs` instead use a
`Token { kind, literal }` struct, a `TokenKind` enum and a `lookup_kind`.
The model follows the code that uses them. `TokenKind` has the kinds used
in `lexer.rs` and `parser.rs`. `LookupKind` has the keyword table of
`lookup_ident`.

## Model

| member | source | states |
|---|---|---|
| Tokens.LookupKindShape | src/token.rs:33-45 | the kind is Ident or a reserved word (never Illegal, Eof, Int or an operator), and a reserved word only for its own spelling |
| Tokens.LookupKindOfSpelling | src/token.rs:34-41 | each of the seven keywords, spelled as in the table, maps to its reserved kind |
| Tokens.LookupKindIdentIff | src/token.rs:34-44 | a string maps to Ident exactly when it spells none of the seven keywords |
| Tokens.LookupKindCaseSensitive | src/token.rs:34-43 | matching is exact: `Let`, `function`, `FN` and `returns` are identifiers |
| Tokens.LookupKind | src/token.rs:33-45 | the keyword table: each of `fn`, `let`, `if`, `true`, `false`, `else`, `return` gets its own reserved kind, and every other string is Ident |
| Lexer.Utf8Width | src/lexer.rs:34 | a character takes 1 to 4 bytes, and exactly 1 when it is ASCII |
| Lexer.IsValidLetter | src/lexer.rs:150-152 | the characters an identifier is made of: an alphabetic character or `_` |
| Lexer.RunEnd | src/lexer.rs:125-147 | the end of the maximal run from p: every character before it is in the run and the one at it is not |
| Lexer.Step | src/lexer.rs:61-123 | a successful call moves the cursor forward, and only the Eof token moves it past the end of the input |
| Lexer.TokensFrom | src/lexer.rs:61-123 | a successful scan ends with the Eof token |
| Lexer.Lexer.constructor | src/lexer.rs:23-39 | on non-empty input the cursor starts at offset 0 on the first character with read_pos one past it, and the cursor invariant holds |
| Lexer.Lexer.ReadChar | src/lexer.rs:41-51 | pos becomes the old read_pos, one past the old pos; ch becomes the character there, or NUL past the end; read_pos stays pos plus ch's width |
| Lexer.Lexer.PeekChar | src/lexer.rs:53-59 | returns the character after the cursor or NUL, changes nothing, and faults exactly when the cursor is on the last character |
| Lexer.Lexer.SkipWhitespace | src/lexer.rs:143-147 | the cursor ends on the first non-blank character at or after where it was |
| Lexer.Lexer.ReadIdentifier | src/lexer.rs:134-141 | the cursor ends at the end of the maximal identifier run, and the literal is exactly that run |
| Lexer.Lexer.ReadNumber | src/lexer.rs:125-132 | the cursor ends at the end of the maximal digit run, and the literal is exactly that run |
| Lexer.Lexer.ReadOperator | src/lexer.rs:65-88 | the `=`/`!` arms return the token and end offset that TwoChar gives, or its fault |
| Lexer.TwoChar | src/lexer.rs:65-88 | the `=`/`!` arm at offset q: fault as the last character; if the next character is `=`, the two-character kind with the literal sliced from q - 1 (fault when q is 0) and two characters consumed; otherwise the one-character kind and one character |
| Lexer.Lexer.NextToken | src/lexer.rs:61-123 | returns the token that Step gives from the old cursor and leaves the cursor where Step says, or returns Step's fault |
| Lexer.StepIgnoresBlanks | src/lexer.rs:61-64 | scanning from p is the same as scanning from the first non-blank at or after p |
| Lexer.StepPunctuation | src/lexer.rs:76-98 | each of `+ - * / < > , ; ( ) { }` yields its own kind with that character as literal and consumes exactly one character |
| Lexer.StepIllegal | src/lexer.rs:115-121 | any other character that is not a letter, digit, `=`, `!` or NUL yields Illegal and consumes one character |
| Lexer.StepOperator | src/lexer.rs:65-88 | `=`/`!` followed by `=`: Eq/NotEq, two characters consumed, literal = previous character plus the operator; otherwise Assign/Bang and one character; faults as the last character, or when the two-character form starts at offset 0 |
| Lexer.StepIdentifier | src/lexer.rs:104-109 | a letter or `_` starts a maximal run classified by LookupKind; the cursor stops on the first character after the run |
| Lexer.StepNumber | src/lexer.rs:110-114 | a digit starts a maximal run yielding Int with exactly that run as literal; the cursor stops after the run |
| Lexer.StepPastEnd | src/lexer.rs:99-102 | past the end of the input every call returns Eof with an empty literal, and the stream from there is just that Eof |
| Lexer.PendingAdvance | src/lexer.rs:61-123 | one call returns the first pending token and leaves the rest pending; once only Eof is left, it stays pending |
| Lexer.Trace | src/lexer.rs:61-123 | the cursor offsets visited while scanning: one before each token, plus the final one |
| Lexer.TraceTraces | src/lexer.rs:61-123 | every token of a successful scan is scanned at the offset the trace gives and leaves the cursor at the next one |
| Lexer.TracesTokensFrom | src/lexer.rs:61-123 | conversely, offsets that chain the tokens determine the stream: scanning from the first offset yields exactly those tokens |
| Lexer.TracesStep | src/lexer.rs:61-123 | the n-th call, also beyond the end of the stream, yields the token the trace predicts and moves to the next offset |
| Ast.NatText | src/parser.rs:55 | the decimal numeral of a value is non-empty and made of digits |
| Ast.NatTextValue | src/parser.rs:55 | the numeral a value renders as denotes that value |
| Ast.IntText | src/parser.rs:55 | `{}` of a signed value: a `-` before the digits of its magnitude when it is negative |
| Ast.ExprText | src/parser.rs:46-59 | Display for an expression, which Expr's Display hands to its ExprKind: a literal as its signed decimal numeral, a name as itself |
| Ast.IdentText | src/parser.rs:7-12 | Display for an identifier: its name as written |
| Ast.StmtText | src/parser.rs:92-100 | Display for a statement: `Bad!`, `let <name> = <value>;` or `return <value>;` |
| Ast.StmtsText | src/parser.rs:107-113 | the statements' renderings concatenated in order |
| Ast.ProgramText | src/parser.rs:102-114 | Display for a program: its statements' renderings, with no separator |
| Ast.StmtsTextAppend | src/parser.rs:107-113 | rendering two statement lists one after the other is rendering their concatenation |
| Ast.WriteProgram | src/parser.rs:107-113 | the Program fmt loop writes exactly the statements' renderings, in order, with no separator |
| Ast.RenderLet | src/parser.rs:96 | `let x = 5` renders as `let x = 5;` |
| Ast.RenderReturn | src/parser.rs:92-100 | `return 1337` renders as `return 1337;`, and a negative value with its sign |
| Ast.RenderProgram | src/parser.rs:92-113 | a program renders as its statements back to back: `let x = 5;Bad!` |
| Parser.NextSemicolon | src/parser.rs:192-194 | when the skip loop stops, it stops at a `;` inside the stream, at or after where it began |
| Parser.NextSemicolonFirst | src/parser.rs:192-194 | the skip loop stops at the first `;`, and runs forever exactly when no `;` follows |
| Parser.ParseErr | src/parser.rs:30-44 | the error `ParseErr::new` builds from a failed expect_peek: the kind required and the kind seen, in that order |
| Parser.LetSpec | src/parser.rs:173-210 | when parse_let_stmt returns, cur is on a `;` at or after the `let` |
| Parser.LetShape | src/parser.rs:173-210 | the let is Bad iff an expect_peek failed; otherwise it binds the Ident's literal to 5; one error per failed expect_peek (0, 1 or 2); diverges iff no `;` follows |
| Parser.LetSpecAt | src/parser.rs:173-194 | the let's statement and errors, read off from where its two expect_peeks leave cur; it returns iff the skip loop from there finds a `;` |
| Parser.ReturnSpec | src/parser.rs:212-227 | parse_return_stmt always yields Return of 1337 and no error, whatever tokens come before the `;`; it diverges iff no `;` follows |
| Parser.ParseFrom | src/parser.rs:142-155 | when parse stops, cur is at or after its start and is neither Let nor Return |
| Parser.StmtAt | src/parser.rs:146-150 | parse's match on cur: a `let` goes to the let rule, a `return` to the return rule, and any other kind starts no statement |
| Parser.Parser.constructor | src/parser.rs:126-135 | cur and peek are the lexer's first two pending tokens, and the error list is empty |
| Parser.Parser.NextToken | src/parser.rs:137-140 | cur takes peek's place, one more token is pulled from the lexer, and the errors are unchanged |
| Parser.Parser.ExpectPeek | src/parser.rs:157-171 | on a match: advance once, return true, errors unchanged; otherwise append exactly ParseErr(t, peek's kind), return false, and leave cur, peek and the lexer as they were |
| Parser.Parser.SkipToSemicolon | src/parser.rs:192-194 | the loop ends at the first `;` at or after cur, and errors are unchanged |
| Parser.Parser.ExpectLetHead | src/parser.rs:174-190 | the two expect_peeks of a let: where each leaves cur, the errors they append, and Bad iff either failed |
| Parser.Parser.ParseLetStmt | src/parser.rs:173-210 | returns LetSpec's statement, appends exactly its errors, and leaves cur on its `;` |
| Parser.Parser.ParseReturnStmt | src/parser.rs:212-227 | returns ReturnSpec's statement, appends nothing, and leaves cur on its `;` |
| Parser.Parser.ParseStatement | src/parser.rs:146-149 | dispatches on cur to the let or return rule, with that rule's result, errors and end |
| Parser.Parser.ParseTurn | src/parser.rs:146-152 | one loop iteration: the statements and errors so far, followed by the parse from cur, stay what they were |
| Parser.Parser.Parse | src/parser.rs:142-155 | the program's statements, the appended errors and the stopping cur are exactly those of ParseFrom |
| Parser.ParseDispatches | src/parser.rs:146-149 | where parse goes on, a Let or Return at cur starts a rule that returns |
| Parser.ParseStep | src/parser.rs:145-153 | one iteration pushes one statement and advances past its `;`, and the rest of the parse follows from there |
| Parser.PrependAssoc | src/parser.rs:142-155 | putting statements and errors in front of an outcome in two steps is the same as putting their concatenations in front once |
| Parser.StmtFacts | src/parser.rs:173-227 | a statement rule yields Bad, a let of 5 or a return of 1337, with one or two errors if Bad and none otherwise |
| Parser.FactsCons | src/parser.rs:145-153 | those facts carry from the rest of the parse to one more statement in front of it |
| Parser.CountBadZero | src/parser.rs:196-199 | the count of Bad statements is zero iff no statement is Bad |
| Parser.ParseFromFacts | src/parser.rs:142-227 | parse yields only those shapes, between one and two errors per Bad statement in total, and at least one token per statement |
| Parser.ParseErrorsIffBad | src/parser.rs:142-227 | parse reports no error exactly when it produced no Bad statement |
| RoundTrip.LineTextIsDisplay | src/parser.rs:92-100 | the text of a let or return line is what Display writes for its statement |
| RoundTrip.LinesTextIsDisplay | src/parser.rs:107-113 | the text of the lines is the program's rendering |
| RoundTrip.LexWord | src/lexer.rs:134-141 | a word of letters followed by a non-letter scans to its LookupKind token and ends right after the word |
| RoundTrip.LexDigits | src/lexer.rs:125-132 | a run of digits followed by a non-digit scans to an Int token with that run as literal |
| RoundTrip.LexSpace | src/lexer.rs:143-147 | a single space before a non-blank does not change what the next call returns |
| RoundTrip.LexAssign | src/lexer.rs:65-74 | `=` followed by a space is Assign and consumes one character |
| RoundTrip.LexSemicolon | src/lexer.rs:94 | `;` is a Semicolon token and consumes one character |
| RoundTrip.LexCons | src/lexer.rs:61-123 | a call that stays inside the input puts its token in front of the stream that follows |
| RoundTrip.LexChain | src/lexer.rs:61-123 | calls chained inside the input put their tokens, in order, in front of the stream after the last one |
| RoundTrip.LexSteps3 | src/lexer.rs:61-123 | three chained calls put their three tokens in front of the rest of the stream |
| RoundTrip.LexSteps5 | src/lexer.rs:61-123 | five chained calls put their five tokens in front of the rest of the stream |
| RoundTrip.LexReturn | src/lexer.rs:61-123 | `return 1337;` scans to Return, Int, Semicolon, followed by the stream after it |
| RoundTrip.LexLet | src/lexer.rs:61-123 | `let n = 5;`, for a name n that is not a keyword, scans to Let, Ident n, Assign, Int, Semicolon, followed by the stream after it |
| RoundTrip.LexLine | src/lexer.rs:61-123 | a rendered line scans to its tokens, followed by the stream after it |
| RoundTrip.LexLines | src/lexer.rs:61-123 | the rendering of the lines, as the whole input, scans to their tokens then Eof, with no fault |
| RoundTrip.ParseLine | src/parser.rs:173-227 | a line's tokens are read by the let or return rule as its statement, with no error, ending on its `;` |
| RoundTrip.ParseLineStep | src/parser.rs:145-153 | a line's statement goes in front of the parse that follows its tokens |
| RoundTrip.ParseLines | src/parser.rs:142-155 | the lines' tokens followed by Eof parse to the lines' statements, with no error, stopping at the Eof |
| RoundTrip.LinesTextAscii | src/parser.rs:92-113 | the rendering of well-named lines is ASCII, and is non-empty exactly when there is a line |
| RoundTrip.RenderedIsInput | src/lexer.rs:23-39 | the rendering of a well-named program is an input `Lexer::new` accepts (ASCII, non-empty) exactly when the program has a statement |
| RoundTrip.RoundTrip | src/parser.rs:92-155 | the rendering of a program of well-named lets and returns scans to its tokens and parses back as the same program, with no errors |
| Examples.LexPlusAssign | src/lexer.rs:165-178 | `+=+=;` scans to Plus, Assign, Plus, Assign, Semicolon, Eof |
| Examples.PlusAssignSteps | src/lexer.rs:165-178 | the five calls over `+=+=;`, one character each |
| Examples.LexLeadingBlanks | src/lexer.rs:179-185 | twelve blanks then `fn` scan to Function, then Eof |
| Examples.LexNumber | src/lexer.rs:186-192 | `12345` scans to one Int token with literal `12345`, then Eof |
| Examples.LexLetX | src/parser.rs:254-256 | `let x = 5;` scans to Let, Ident x, Assign, Int 5, Semicolon, Eof |
| Examples.ParseLetX | src/parser.rs:253-271 | those tokens parse to the one binding of x to 5, with no error |
| Examples.ReturnSkipsAnything | src/parser.rs:234-252 | a return followed by any tokens up to the first `;`, then Eof, parses to exactly one Return of 1337 with no error |
| Examples.FaultAfterStopSteps | src/lexer.rs:53-59 | the three calls over `1 x =`: Int `1`, Ident `x`, then the peek_char fault on the last character |
| Examples.LexFaultAfterStop | src/lexer.rs:53-59 | on `1 x =` the first two calls give Int `1` and Ident `x`, the third faults in peek_char on the trailing `=`, so the whole stream is a fault |

## Left out

- The stdin REPL loop in `src/main.rs` (`read_line`, `println!`) is I/O glue and is not part of this model.
- `Cell` / `RefCell` interior mutability and lifetimes are modelled as ordinary mutable fields. The Parser holds a reference to its Lexer object.
- Unicode: the input is restricted to ASCII. Byte offsets are then indices, and every width is 1. `char::is_whitespace`, `is_alphabetic` and `is_numeric` are their ASCII restrictions. Utf8Width is still written out as `len_utf8`.
- A multi-byte character that the one-byte `emit_token!` slice would split is not modelled: it cannot occur in ASCII input.
- Lexer.Lexer.constructor: requires non-empty input, because `Lexer::new` unwraps the first character and panics on empty input.
- Parser.Parser.constructor: requires that the lexer's whole remaining input scans without a fault, so every input that faults anywhere is outside the parser model. That includes inputs where the source never reaches the fault, because `parse` stops first. An example is `1 x =`: `Parser::new` pulls `Int` and `Ident`, and `parse` stops on the `Int` with an empty program and no errors, but the trailing `=` faults in `peek_char` (Examples.LexFaultAfterStop). The scanner's faults themselves are modelled in Lexer.Step.
- Parser.Parser.Parse: requires that ParseFrom does not diverge. This means every statement's skip loop finds a `;`. Non-termination is stated in the pure parser (Diverges, NextSemicolonFirst), not run as a loop.
- The error message text built with `{:?}` in `ParseErr::new` is modelled as the pair (expected kind, actual kind).
- Dead code: `LiteralKind` and the `Debug` and payload variants of the `Token` enum in `src/token.rs` are not modelled.
- Expression parsing does not exist in the source: the values are the fixed placeholders 5 and 1337, modelled as the project's own `i32` newtype (ast.dfy).
- The lexer robustness test in `src/lexer.rs:194-244` is not stated as a lemma. Its 98-character input is too large for the solver to evaluate character by character. The kinds it checks are covered by the Step lemmas, and Eof idempotence by StepPastEnd.
- RoundTrip.RoundTrip: holds for programs of well-named `let` and `return` statements. A `Bad` statement renders as `Bad!`, which does not parse back, so those are excluded. The lemma is about the pure TokensFrom and ParseFrom. The empty program renders as the empty string, on which `Lexer::new` panics, so for the source the round trip needs at least one statement (RoundTrip.RenderedIsInput).
- An embedded NUL character is scanned as an Eof token. Then, as in the source's `next_token`, the next call goes on to the following character, and TokensFrom keeps scanning. Only `parse`'s loop stops at that Eof, since it is not a `let` or `return`.
