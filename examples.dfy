/**
 * The behaviours the lexer's and parser's own unit tests pin down, stated on
 * the model: each lemma is one test's input and what it expects.
 *
 * Each input is a parameter fixed by a `requires s == "..."` rather than a
 * string literal written into the ensures: the solver then reads the input a
 * character at a time through the asserts of the body, instead of unfolding
 * the scanner over the literal on its own.
 */
module Examples {
  import opened Tokens
  import opened Lexer
  import opened Ast
  import opened Parser
  import opened RoundTrip

  /** `+=+=;`: an `=` followed by `+` is Assign, not Eq; each punctuation character is one token. */
  lemma LexPlusAssign(s: string)
    requires s == "+=+=;"
    ensures TokensFrom(s, 0) == Ok([Token(Plus, "+"), Token(Assign, "="), Token(Plus, "+"),
                                          Token(Assign, "="), Token(Semicolon, ";"), EofToken])
  {
    PlusAssignSteps(s);
    LexSteps5(s, 0, 1, 2, 3, 4, 5, Token(Plus, "+"), Token(Assign, "="), Token(Plus, "+"),
              Token(Assign, "="), Token(Semicolon, ";"));
    StepPastEnd(s, 5);
    assert [Token(Plus, "+"), Token(Assign, "="), Token(Plus, "+"), Token(Assign, "="), Token(Semicolon, ";")] + [EofToken]
        == [Token(Plus, "+"), Token(Assign, "="), Token(Plus, "+"), Token(Assign, "="), Token(Semicolon, ";"), EofToken];
  }

  lemma PlusAssignSteps(s: string)
    requires s == "+=+=;"
    ensures Step(s, 0) == Ok(Scanned(Token(Plus, "+"), 1))
    ensures Step(s, 1) == Ok(Scanned(Token(Assign, "="), 2))
    ensures Step(s, 2) == Ok(Scanned(Token(Plus, "+"), 3))
    ensures Step(s, 3) == Ok(Scanned(Token(Assign, "="), 4))
    ensures Step(s, 4) == Ok(Scanned(Token(Semicolon, ";"), 5))
  {
    forall p | 0 <= p < 5 ensures RunEnd(s, p, IsBlank) == p {
      RunEndAt(s, p, p, IsBlank);
    }
    assert s[0..1] == "+" && s[1..2] == "=" && s[2..3] == "+" && s[3..4] == "=" && s[4..5] == ";";
  }

  /** Twelve blanks before `fn`: the blanks are skipped and `fn` is the Function keyword. */
  lemma LexLeadingBlanks(s: string)
    requires s == "            fn"
    ensures TokensFrom(s, 0) == Ok([Token(Function, "fn"), EofToken])
  {
    RunEndAt(s, 0, 12, IsBlank);
    RunEndAt(s, 12, 14, IsValidLetter);
    assert s[12..14] == "fn";
    assert Step(s, 0) == Ok(Scanned(Token(Function, "fn"), 14));
    LexCons(s, 0, Token(Function, "fn"), 14);
    StepPastEnd(s, 14);
    assert [Token(Function, "fn")] + [EofToken] == [Token(Function, "fn"), EofToken];
  }

  /** `12345`: one Int token whose literal is the whole run of digits. */
  lemma LexNumber(s: string)
    requires s == "12345"
    ensures TokensFrom(s, 0) == Ok([Token(Int, "12345"), EofToken])
  {
    RunEndAt(s, 0, 0, IsBlank);
    RunEndAt(s, 0, 5, IsNumeric);
    assert s[0..5] == s;
    assert Step(s, 0) == Ok(Scanned(Token(Int, "12345"), 5));
    LexCons(s, 0, Token(Int, "12345"), 5);
    StepPastEnd(s, 5);
    assert [Token(Int, "12345")] + [EofToken] == [Token(Int, "12345"), EofToken];
  }

  /** `let x = 5;` scans to the five tokens of a `let` and the final Eof. */
  lemma LexLetX(s: string)
    requires s == "let x = 5;"
    ensures TokensFrom(s, 0) == Ok(LetXTokens())
  {
    var w := LineText(LetLine("x"));
    assert s[0..|w|] == w;
    assert IsValidLetter("x"[0]);
    LexLet(s, 0, "x", 10);
    StepPastEnd(s, 10);
    assert LineTokens(LetLine("x")) + [EofToken] == LetXTokens();
  }

  function LetXTokens(): seq<Token> {
    [Token(TokenKind.Let, "let"), Token(TokenKind.Ident, "x"), Token(Assign, "="), Token(Int, "5"),
     Token(Semicolon, ";"), EofToken]
  }

  /** The tokens of `let x = 5;` parse to the binding of x to 5, with no error, stopping at the Eof. */
  lemma ParseLetX()
    ensures ParseFrom(LetXTokens(), 0) == Complete([LetOf("x", 5)], [], 5)
  {
    var ls := [LetLine("x")];
    assert ls[1..] == [] && LineStmts(ls) == [LetOf("x", 5)];
    assert LinesTokens(ls) + [EofToken] == LetXTokens();
    ParseLines(ls);
  }

  /**
   * A `return` followed by any tokens up to the first `;`, then Eof: parse
   * reads exactly one Return of the placeholder and records no error, however
   * malformed the tokens in between are.
   */
  lemma ReturnSkipsAnything(ts: seq<Token>, k: nat)
    requires Tok(ts, 0).kind == TokenKind.Return && NextSemicolon(ts, 1) == Some(k)
    requires Tok(ts, k + 1).kind == Eof
    ensures ParseFrom(ts, 0) == Complete([ReturnOf(1337)], [], k + 1)
  {
    assert ParseFrom(ts, k + 1) == Complete([], [], k + 1);
  }

  /**
   * `1 x =`: the first two calls scan Int and Ident, which is all the parser's
   * constructor pulls before parse stops on the Int; the third call, on the
   * trailing `=`, faults in peek_char. The whole stream is therefore a fault.
   */
  lemma LexFaultAfterStop(s: string)
    requires s == "1 x ="
    ensures Step(s, 0) == Ok(Scanned(Token(Int, "1"), 1))
    ensures Step(s, 1) == Ok(Scanned(Token(TokenKind.Ident, "x"), 3))
    ensures Step(s, 3) == Err(PeekPastEnd)
    ensures TokensFrom(s, 0) == Err(PeekPastEnd)
  {
    FaultAfterStopSteps(s);
    assert TokensFrom(s, 3) == Err(PeekPastEnd);
    assert TokensFrom(s, 1) == Err(PeekPastEnd);
  }

  lemma FaultAfterStopSteps(s: string)
    requires s == "1 x ="
    ensures Step(s, 0) == Ok(Scanned(Token(Int, "1"), 1))
    ensures Step(s, 1) == Ok(Scanned(Token(TokenKind.Ident, "x"), 3))
    ensures Step(s, 3) == Err(PeekPastEnd)
  {
    RunEndAt(s, 0, 0, IsBlank);
    RunEndAt(s, 0, 1, IsNumeric);
    assert s[0..1] == "1";
    RunEndAt(s, 1, 2, IsBlank);
    RunEndAt(s, 2, 3, IsValidLetter);
    assert s[2..3] == "x";
    RunEndAt(s, 3, 4, IsBlank);
  }
}
