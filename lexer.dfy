/**
 * The scanner: a cursor over the source text that yields one token per call,
 * with one character of lookahead.
 *
 * Offsets are byte offsets in the source; the model keeps the input to ASCII,
 * where every character is one byte wide, so an offset is also an index into
 * the character sequence.
 */
module Lexer {
  import opened Tokens

  /** The ways a lexer call panics in the source. */
  datatype Fault =
    | PeekPastEnd     // peek_char unwraps the empty remainder when read_pos == len
    | SliceUnderflow  // the `==`/`!=` literal starts at pos - 2, below offset 0

  datatype Result<T> = Ok(value: T) | Err(fault: Fault)

  /** The sentinel the cursor holds once the input is exhausted. */
  const NUL: char := '\0'

  predicate IsAscii(s: string) {
    forall i | 0 <= i < |s| :: s[i] as int < 0x80
  }

  /** Bytes taken by a character in UTF-8 (char::len_utf8). */
  function Utf8Width(c: char): (w: nat)
    ensures 1 <= w <= 4
    ensures c as int < 0x80 <==> w == 1
  {
    if c as int < 0x80 then 1
    else if c as int < 0x800 then 2
    else if c as int < 0x1_0000 then 3
    else 4
  }

  /** char::is_whitespace on ASCII: tab, line feed, vertical tab, form feed, carriage return, space. */
  predicate IsWhitespace(c: char) {
    c == ' ' || '\t' <= c <= '\r'
  }

  /** char::is_alphabetic on ASCII. */
  predicate IsAlphabetic(c: char) {
    'a' <= c <= 'z' || 'A' <= c <= 'Z'
  }

  /** char::is_numeric on ASCII. */
  predicate IsNumeric(c: char) {
    '0' <= c <= '9'
  }

  /** is_valid_letter: the characters an identifier is made of. */
  predicate IsValidLetter(c: char) {
    IsAlphabetic(c) || c == '_'
  }

  /** The loop condition of skip_whitespace. */
  predicate IsBlank(c: char) {
    IsWhitespace(c) || c == '\n' || c == '\r'
  }

  /** The character the cursor holds at offset i: the input's, or the sentinel past the end. */
  function CharAt(input: string, i: nat): char {
    if i < |input| then input[i] else NUL
  }

  /**
   * The end of the maximal run of characters satisfying inRun that starts at p:
   * where skip_whitespace, read_identifier and read_number leave the cursor.
   */
  function RunEnd(input: string, p: nat, inRun: char -> bool): (q: nat)
    requires !inRun(NUL)
    ensures p <= q && !inRun(CharAt(input, q))
    ensures forall k | p <= k < q :: inRun(CharAt(input, k))
    ensures q == p || q <= |input|
    decreases |input| - p
  {
    if inRun(CharAt(input, p)) then RunEnd(input, p + 1, inRun) else p
  }

  /** A scanned token and the offset of the cursor after it. */
  datatype Scanned = Scanned(tok: Token, next: nat)

  /** The `=`/`!` arm of next_token, with the cursor on that character at offset q. */
  function TwoChar(input: string, q: nat, one: TokenKind, two: TokenKind): Result<Scanned>
    requires q < |input|
  {
    if q + 1 == |input| then Err(PeekPastEnd)
    else if input[q + 1] == '=' then
      // after the extra read_char the cursor is at q + 1; the literal is [pos - 2, pos)
      if q + 1 < 2 then Err(SliceUnderflow)
      else Ok(Scanned(Token(two, input[q - 1..q + 1]), q + 2))
    else Ok(Scanned(Token(one, input[q..q + 1]), q + 1))
  }

  /** A one-character token at offset q (the emit_token! arms and Illegal). */
  function Single(input: string, q: nat, k: TokenKind): Result<Scanned>
    requires q < |input|
  {
    Ok(Scanned(Token(k, input[q..q + 1]), q + 1))
  }

  /** The punctuation characters that scan to a token of their own. */
  const Punctuation: map<char, TokenKind> := map[
    '+' := Plus, '-' := Minus, '*' := Asterisk, '/' := Slash, '<' := Lt, '>' := Gt,
    ',' := Comma, ';' := Semicolon, '(' := Lparen, ')' := Rparen, '{' := Lbrace, '}' := Rbrace]

  /** next_token, as a function of the input and the cursor's offset p. */
  function Step(input: string, p: nat): (r: Result<Scanned>)
    ensures r.Ok? ==> p < r.value.next
    ensures r.Ok? && r.value.next > |input| ==> r.value.tok == EofToken
  {
    var q := RunEnd(input, p, IsBlank);
    var c := CharAt(input, q);
    match c
    case '=' => TwoChar(input, q, Assign, Eq)
    case '+' => Single(input, q, Plus)
    case '-' => Single(input, q, Minus)
    case '!' => TwoChar(input, q, Bang, NotEq)
    case '*' => Single(input, q, Asterisk)
    case '/' => Single(input, q, Slash)
    case '<' => Single(input, q, Lt)
    case '>' => Single(input, q, Gt)
    case ',' => Single(input, q, Comma)
    case ';' => Single(input, q, Semicolon)
    case '(' => Single(input, q, Lparen)
    case ')' => Single(input, q, Rparen)
    case '{' => Single(input, q, Lbrace)
    case '}' => Single(input, q, Rbrace)
    case '\0' => Ok(Scanned(EofToken, q + 1))
    case _ =>
      if IsValidLetter(c) then
        var e := RunEnd(input, q, IsValidLetter);
        Ok(Scanned(Token(LookupKind(input[q..e]), input[q..e]), e))
      else if IsNumeric(c) then
        var e := RunEnd(input, q, IsNumeric);
        Ok(Scanned(Token(Int, input[q..e]), e))
      else Single(input, q, Illegal)
  }

  /**
   * The tokens repeated next_token calls return from offset p, up to and
   * including the Eof scanned past the end of the input; every call after
   * that returns Eof again (StepPastEnd).
   */
  function TokensFrom(input: string, p: nat): (r: Result<seq<Token>>)
    ensures r.Ok? ==> |r.value| > 0 && r.value[|r.value| - 1] == EofToken
    decreases |input| + 1 - p
  {
    match Step(input, p)
    case Err(f) => Err(f)
    case Ok(s) =>
      if s.next > |input| then Ok([s.tok])
      else
        match TokensFrom(input, s.next)
        case Err(f) => Err(f)
        case Ok(rest) => Ok([s.tok] + rest)
  }

  class Lexer {
    const input: string
    var pos: nat      // offset of the current character
    var readPos: nat  // offset of the next character
    var ch: char      // the current character, or NUL past the end

    ghost predicate Valid()
      reads this
    {
      IsAscii(input) && ch == CharAt(input, pos) && readPos == pos + Utf8Width(ch)
    }

    /** The tokens still to come from this cursor. */
    ghost function Pending(): Result<seq<Token>>
      reads this
    {
      TokensFrom(input, pos)
    }

    /** Lexer::new: the cursor starts on the first character; empty input makes the source panic. */
    constructor (inp: string)
      requires |inp| > 0 && IsAscii(inp)
      ensures Valid() && input == inp
      ensures pos == 0 && ch == inp[0] && readPos == 1
    {
      var c := inp[0];
      input := inp;
      pos := 0;
      readPos := Utf8Width(c);
      ch := c;
    }

    /** read_char: move one character forward; past the end the cursor holds NUL. */
    method ReadChar()
      requires Valid()
      modifies this
      ensures Valid()
      ensures pos == old(readPos) && pos == old(pos) + 1
    {
      var c: char;
      if readPos >= |input| {
        c := NUL;
      } else {
        c := input[readPos];
      }
      ch := c;
      pos := readPos;
      readPos := readPos + Utf8Width(c);
    }

    /** peek_char: the next character, without moving; panics when the current one is the last. */
    method PeekChar() returns (r: Result<char>)
      requires Valid()
      ensures r.Err? <==> pos + 1 == |input|
      ensures r.Err? ==> r.fault == PeekPastEnd
      ensures r.Ok? ==> r.value == CharAt(input, pos + 1)
    {
      if readPos > |input| {
        r := Ok(NUL);
      } else if readPos == |input| {
        r := Err(PeekPastEnd);
      } else {
        r := Ok(input[readPos]);
      }
    }

    /** skip_whitespace: afterwards the cursor is on the first non-blank character. */
    method SkipWhitespace()
      requires Valid()
      modifies this
      ensures Valid() && !IsBlank(ch)
      ensures pos == RunEnd(input, old(pos), IsBlank)
    {
      while IsWhitespace(ch) || ch == '\n' || ch == '\r'
        invariant Valid() && old(pos) <= pos
        invariant RunEnd(input, pos, IsBlank) == RunEnd(input, old(pos), IsBlank)
        decreases |input| - pos
      {
        ReadChar();
      }
    }

    /** read_identifier: the maximal run of identifier characters from the cursor. */
    method ReadIdentifier() returns (literal: string)
      requires Valid() && pos <= |input|
      modifies this
      ensures Valid()
      ensures pos == RunEnd(input, old(pos), IsValidLetter)
      ensures literal == input[old(pos)..pos]
    {
      var lo := pos;
      while IsValidLetter(ch)
        invariant Valid() && lo <= pos <= |input|
        invariant RunEnd(input, pos, IsValidLetter) == RunEnd(input, lo, IsValidLetter)
        decreases |input| - pos
      {
        ReadChar();
      }
      literal := input[lo..pos];
    }

    /** read_number: the maximal run of digits from the cursor. */
    method ReadNumber() returns (literal: string)
      requires Valid() && pos <= |input|
      modifies this
      ensures Valid()
      ensures pos == RunEnd(input, old(pos), IsNumeric)
      ensures literal == input[old(pos)..pos]
    {
      var lo := pos;
      while IsNumeric(ch)
        invariant Valid() && lo <= pos <= |input|
        invariant RunEnd(input, pos, IsNumeric) == RunEnd(input, lo, IsNumeric)
        decreases |input| - pos
      {
        ReadChar();
      }
      literal := input[lo..pos];
    }

    /**
     * The `=` and `!` arms of next_token: a two-character operator when `=`
     * follows, else the one-character one; both arms share this code.
     */
    method ReadOperator(one: TokenKind, two: TokenKind) returns (r: Result<Token>)
      requires Valid() && pos < |input|
      modifies this
      ensures Valid()
      ensures match TwoChar(input, old(pos), one, two)
        case Ok(s) => r == Ok(s.tok) && pos == s.next
        case Err(f) => r == Err(f)
    {
      var peeked := PeekChar();
      if peeked.Err? {
        return Err(peeked.fault);
      }
      var tok: Token;
      if peeked.value == '=' {
        ReadChar();
        if pos < 2 {
          return Err(SliceUnderflow);
        }
        tok := Token(two, input[pos - 2..pos]);
      } else {
        tok := Token(one, input[pos..pos + 1]);
      }
      ReadChar();
      r := Ok(tok);
    }

    /** next_token: skip blanks, classify the current character, move past the token. */
    method NextToken() returns (r: Result<Token>)
      requires Valid()
      modifies this
      ensures Valid()
      ensures match Step(input, old(pos))
        case Ok(s) => r == Ok(s.tok) && pos == s.next
        case Err(f) => r == Err(f)
    {
      SkipWhitespace();
      var tok: Token;
      match ch {
      case '=' =>
        r := ReadOperator(Assign, Eq);
        return;
      case '+' => tok := Token(Plus, input[pos..pos + 1]);
      case '-' => tok := Token(Minus, input[pos..pos + 1]);
      case '!' =>
        r := ReadOperator(Bang, NotEq);
        return;
      case '*' => tok := Token(Asterisk, input[pos..pos + 1]);
      case '/' => tok := Token(Slash, input[pos..pos + 1]);
      case '<' => tok := Token(Lt, input[pos..pos + 1]);
      case '>' => tok := Token(Gt, input[pos..pos + 1]);
      case ',' => tok := Token(Comma, input[pos..pos + 1]);
      case ';' => tok := Token(Semicolon, input[pos..pos + 1]);
      case '(' => tok := Token(Lparen, input[pos..pos + 1]);
      case ')' => tok := Token(Rparen, input[pos..pos + 1]);
      case '{' => tok := Token(Lbrace, input[pos..pos + 1]);
      case '}' => tok := Token(Rbrace, input[pos..pos + 1]);
      case '\0' => tok := EofToken;
      case _ =>
        if IsValidLetter(ch) {
          var literal := ReadIdentifier();
          return Ok(Token(LookupKind(literal), literal));
        } else if IsNumeric(ch) {
          var literal := ReadNumber();
          return Ok(Token(Int, literal));
        } else {
          tok := Token(Illegal, input[pos..pos + 1]);
        }
      }
      ReadChar();
      r := Ok(tok);
    }
  }


  /** Leading blanks never affect classification: scanning from p is scanning from the first non-blank. */
  lemma StepIgnoresBlanks(input: string, p: nat)
    ensures Step(input, p) == Step(input, RunEnd(input, p, IsBlank))
  {
    var q := RunEnd(input, p, IsBlank);
    assert RunEnd(input, q, IsBlank) == q;
  }

  /** A punctuation character scans to its kind and consumes exactly that character. */
  lemma StepPunctuation(input: string, p: nat)
    requires CharAt(input, RunEnd(input, p, IsBlank)) in Punctuation
    ensures var q := RunEnd(input, p, IsBlank);
      q < |input| && Step(input, p) == Ok(Scanned(Token(Punctuation[input[q]], [input[q]]), q + 1))
  {
    var q := RunEnd(input, p, IsBlank);
    assert input[q..q + 1] == [input[q]];
  }

  /** Any other character outside the recognised set is Illegal and consumes exactly that character. */
  lemma StepIllegal(input: string, p: nat)
    requires var c := CharAt(input, RunEnd(input, p, IsBlank));
      c !in Punctuation && c != '=' && c != '!' && c != NUL && !IsValidLetter(c) && !IsNumeric(c)
    ensures var q := RunEnd(input, p, IsBlank);
      q < |input| && Step(input, p) == Ok(Scanned(Token(Illegal, [input[q]]), q + 1))
  {
    var q := RunEnd(input, p, IsBlank);
    assert input[q..q + 1] == [input[q]];
  }

  /**
   * `=` and `!`: followed by `=` they scan to Eq/NotEq and consume two characters,
   * with the literal taken from the character before the operator and its first
   * character; otherwise Assign/Bang and one character. The lookahead fails when
   * the operator is the last character, and the literal slice when it is the first.
   */
  lemma StepOperator(input: string, p: nat)
    requires CharAt(input, RunEnd(input, p, IsBlank)) in {'=', '!'}
    ensures var q := RunEnd(input, p, IsBlank);
      q < |input| &&
      var c := input[q];
      var one := if c == '=' then Assign else Bang;
      var two := if c == '=' then Eq else NotEq;
      (q + 1 == |input| ==> Step(input, p) == Err(PeekPastEnd)) &&
      (q + 1 < |input| && input[q + 1] == '=' && q == 0 ==> Step(input, p) == Err(SliceUnderflow)) &&
      (q + 1 < |input| && input[q + 1] == '=' && q > 0 ==>
        Step(input, p) == Ok(Scanned(Token(two, [input[q - 1], c]), q + 2))) &&
      (q + 1 < |input| && input[q + 1] != '=' ==> Step(input, p) == Ok(Scanned(Token(one, [c]), q + 1)))
  {
    var q := RunEnd(input, p, IsBlank);
    assert input[q..q + 1] == [input[q]];
    if q > 0 && q + 1 < |input| {
      assert input[q - 1..q + 1] == [input[q - 1], input[q]];
    }
  }

  /**
   * A letter or `_` starts a maximal identifier run, classified by the keyword
   * table; the cursor is left on the first character after the run.
   */
  lemma StepIdentifier(input: string, p: nat)
    requires IsValidLetter(CharAt(input, RunEnd(input, p, IsBlank)))
    ensures var q := RunEnd(input, p, IsBlank);
      var e := RunEnd(input, q, IsValidLetter);
      q < e <= |input| && !IsValidLetter(CharAt(input, e)) &&
      (forall k | q <= k < e :: IsValidLetter(input[k])) &&
      Step(input, p) == Ok(Scanned(Token(LookupKind(input[q..e]), input[q..e]), e))
  {
    var q := RunEnd(input, p, IsBlank);
    var e := RunEnd(input, q, IsValidLetter);
    forall k | q <= k < e ensures IsValidLetter(input[k]) {
      assert IsValidLetter(CharAt(input, k));
    }
  }

  /** A digit starts a maximal run that scans to Int with exactly that run as its literal. */
  lemma StepNumber(input: string, p: nat)
    requires IsNumeric(CharAt(input, RunEnd(input, p, IsBlank)))
    ensures var q := RunEnd(input, p, IsBlank);
      var e := RunEnd(input, q, IsNumeric);
      q < e <= |input| && !IsNumeric(CharAt(input, e)) &&
      (forall k | q <= k < e :: IsNumeric(input[k])) &&
      Step(input, p) == Ok(Scanned(Token(Int, input[q..e]), e))
  {
    var q := RunEnd(input, p, IsBlank);
    var e := RunEnd(input, q, IsNumeric);
    forall k | q <= k < e ensures IsNumeric(input[k]) {
      assert IsNumeric(CharAt(input, k));
    }
  }

  /** Past the end of the input every call scans Eof with an empty literal, and nothing follows it. */
  lemma StepPastEnd(input: string, p: nat)
    requires p >= |input|
    ensures Step(input, p) == Ok(Scanned(EofToken, p + 1))
    ensures TokensFrom(input, p) == Ok([EofToken])
  {
    assert RunEnd(input, p, IsBlank) == p;
  }

  /**
   * The token stream advances by one token per call: the next call returns the
   * first pending token and leaves the rest pending; once only the final Eof is
   * left it stays pending.
   */
  lemma PendingAdvance(input: string, p: nat)
    requires TokensFrom(input, p).Ok?
    ensures Step(input, p).Ok?
    ensures var ts := TokensFrom(input, p).value;
      Step(input, p).value.tok == ts[0] &&
      TokensFrom(input, Step(input, p).value.next) == Ok(if |ts| > 1 then ts[1..] else ts)
  {
    var s := Step(input, p).value;
    if s.next > |input| {
      StepPastEnd(input, s.next);
    }
  }
  /** The token at index i of a stream, or Eof beyond its end (the lexer keeps returning Eof there). */
  function Tok(ts: seq<Token>, i: nat): Token {
    if i < |ts| then ts[i] else EofToken
  }

  /**
   * The cursor offset before the n-th call, given the offsets ps before each
   * token of a stream and after its last one; past the end every call moves
   * the cursor by one.
   */
  function OffsetAt(ps: seq<nat>, n: nat): nat
    requires |ps| > 0
  {
    if n < |ps| then ps[n] else ps[|ps| - 1] + (n - |ps| + 1)
  }

  /**
   * Scanning from ps[0] yields the tokens ts, each scanned at the offset before
   * it and leaving the cursor at the next one; only the last leaves it past the
   * end of the input.
   */
  ghost predicate Traces(input: string, ps: seq<nat>, ts: seq<Token>) {
    |ps| == |ts| + 1 && ps[|ts|] > |input| &&
    (forall j | 0 < j < |ts| :: ps[j] <= |input|) &&
    forall j {:trigger Step(input, ps[j])} | 0 <= j < |ts| :: Step(input, ps[j]) == Ok(Scanned(ts[j], ps[j + 1]))
  }

  /** The offsets the cursor visits while yielding TokensFrom(input, p). */
  ghost function Trace(input: string, p: nat): (ps: seq<nat>)
    requires TokensFrom(input, p).Ok?
    ensures |ps| == |TokensFrom(input, p).value| + 1 && ps[0] == p
    decreases |input| + 1 - p
  {
    var s := Step(input, p).value;
    if s.next > |input| then [p, s.next] else [p] + Trace(input, s.next)
  }

  /** The trace of a successful scan is one: every pending token is scanned where the trace says. */
  lemma {:induction false} TraceTraces(input: string, p: nat)
    requires TokensFrom(input, p).Ok?
    ensures Traces(input, Trace(input, p), TokensFrom(input, p).value)
    decreases |input| + 1 - p
  {
    var s := Step(input, p).value;
    var ps := Trace(input, p);
    var ts := TokensFrom(input, p).value;
    if s.next <= |input| {
      TraceTraces(input, s.next);
      var ps' := Trace(input, s.next);
      var ts' := TokensFrom(input, s.next).value;
      assert ps == [p] + ps' && ts == [s.tok] + ts';
      forall j | 0 <= j < |ts| ensures Step(input, ps[j]) == Ok(Scanned(ts[j], ps[j + 1])) {
        if j > 0 {
          assert ps[j] == ps'[j - 1] && ps[j + 1] == ps'[j] && ts[j] == ts'[j - 1];
        }
      }
      forall j | 0 < j < |ts| ensures ps[j] <= |input| {
        assert ps[j] == ps'[j - 1];
      }
    }
  }

  /** Conversely a trace determines the stream: from its first offset the lexer yields exactly ts. */
  lemma {:induction false} TracesTokensFrom(input: string, ps: seq<nat>, ts: seq<Token>)
    requires Traces(input, ps, ts) && |ts| > 0
    ensures TokensFrom(input, ps[0]) == Ok(ts)
    decreases |ts|
  {
    assert Step(input, ps[0]) == Ok(Scanned(ts[0], ps[1]));
    if |ts| > 1 {
      var ps' := ps[1..];
      var ts' := ts[1..];
      forall j | 0 <= j < |ts'| ensures Step(input, ps'[j]) == Ok(Scanned(ts'[j], ps'[j + 1])) {
        assert Step(input, ps[j + 1]) == Ok(Scanned(ts[j + 1], ps[j + 2]));
      }
      assert ps[1] <= |input|;
      TracesTokensFrom(input, ps', ts');
      assert ts == [ts[0]] + ts';
    } else {
      assert ps[1] > |input| && ts == [ts[0]];
    }
  }

  /** Each call, also past the end of the stream, scans the token a trace predicts and moves to its next offset. */
  lemma TracesStep(input: string, ps: seq<nat>, ts: seq<Token>, n: nat)
    requires Traces(input, ps, ts)
    ensures Step(input, OffsetAt(ps, n)) == Ok(Scanned(Tok(ts, n), OffsetAt(ps, n + 1)))
  {
    if n < |ts| {
      assert Step(input, ps[n]) == Ok(Scanned(ts[n], ps[n + 1]));
    } else {
      StepPastEnd(input, OffsetAt(ps, n));
    }
  }
}
