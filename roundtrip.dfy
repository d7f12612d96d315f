/**
 * Rendering, scanning and parsing agree: the text Display writes for a program
 * of well-formed `let` and `return` statements scans to the expected tokens,
 * and parse turns those tokens back into the same statements with no errors.
 */
module RoundTrip {
  import opened Tokens
  import opened Lexer
  import opened Ast
  import opened Parser

  /**
   * The statements parse builds without error: a `let` binding a name to the
   * placeholder 5, or a `return` of the placeholder 1337 (ParseFromFacts).
   */
  datatype Line = LetLine(name: string) | ReturnLine

  function LineStmt(l: Line): Stmt {
    match l
    case LetLine(n) => LetOf(n, 5)
    case ReturnLine => ReturnOf(1337)
  }

  function LineStmts(ls: seq<Line>): seq<Stmt> {
    if ls == [] then [] else [LineStmt(ls[0])] + LineStmts(ls[1..])
  }

  /** A name the rendering of a `let` can carry back: a non-empty run of letters that spells no reserved word. */
  predicate IsName(n: string) {
    |n| > 0 && (forall j | 0 <= j < |n| :: IsValidLetter(n[j])) && forall k :: IsKeyword(k) ==> Spelling(k) != n
  }

  predicate WellNamed(ls: seq<Line>) {
    forall j | 0 <= j < |ls| :: ls[j].LetLine? ==> IsName(ls[j].name)
  }

  /** The rendering of a line, piece by piece. */
  function LineText(l: Line): string {
    match l
    case LetLine(n) => "let" + " " + n + " " + "=" + " " + "5" + ";"
    case ReturnLine => "return" + " " + "1337" + ";"
  }

  function LinesText(ls: seq<Line>): string {
    if ls == [] then "" else LineText(ls[0]) + LinesText(ls[1..])
  }

  /** The tokens the rendering of a line is read as. */
  function LineTokens(l: Line): seq<Token> {
    match l
    case LetLine(n) =>
      [Token(TokenKind.Let, "let"), Token(TokenKind.Ident, n), Token(Assign, "="), Token(Int, "5"), Token(Semicolon, ";")]
    case ReturnLine => [Token(TokenKind.Return, "return"), Token(Int, "1337"), Token(Semicolon, ";")]
  }

  function LinesTokens(ls: seq<Line>): seq<Token> {
    if ls == [] then [] else LineTokens(ls[0]) + LinesTokens(ls[1..])
  }

  /** A line's rendering is what Display writes for its statement. */
  lemma LineTextIsDisplay(l: Line)
    ensures StmtText(LineStmt(l)) == LineText(l)
  {
    if l.ReturnLine? {
      RenderReturn();
    } else {
      assert ExprText(Expr(Literal(5))) == "5";
    }
  }

  lemma {:induction false} LinesTextIsDisplay(ls: seq<Line>)
    ensures StmtsText(LineStmts(ls)) == LinesText(ls)
    decreases |ls|
  {
    if ls != [] {
      var ss := LineStmts(ls);
      assert ss[0] == LineStmt(ls[0]) && ss[1..] == LineStmts(ls[1..]);
      LineTextIsDisplay(ls[0]);
      LinesTextIsDisplay(ls[1..]);
    }
  }

  /** The end of a run is where the predicate first fails. */
  lemma {:induction false} RunEndAt(s: string, p: nat, e: nat, inRun: char -> bool)
    requires !inRun(NUL) && p <= e
    requires forall j | p <= j < e :: inRun(CharAt(s, j))
    requires !inRun(CharAt(s, e))
    ensures RunEnd(s, p, inRun) == e
    decreases e - p
  {
    if p < e {
      RunEndAt(s, p + 1, e, inRun);
    }
  }

  /** The sequence holds w at offset p. */
  ghost predicate Matches<T>(s: seq<T>, p: nat, w: seq<T>) {
    p + |w| <= |s| && s[p..p + |w|] == w
  }

  lemma MatchesSplit<T>(s: seq<T>, p: nat, a: seq<T>, b: seq<T>)
    requires Matches(s, p, a + b)
    ensures Matches(s, p, a) && Matches(s, p + |a|, b)
  {
    assert s[p..p + |a|] == (a + b)[..|a|] == a;
    assert s[p + |a|..p + |a| + |b|] == (a + b)[|a|..] == b;
  }

  lemma MatchesChar(s: string, p: nat, w: string, j: nat)
    requires Matches(s, p, w) && j < |w|
    ensures CharAt(s, p + j) == w[j]
  {
    assert s[p..p + |w|][j] == s[p + j];
  }

  /** A word of letters followed by a non-letter scans to its keyword or identifier token. */
  lemma LexWord(s: string, p: nat, w: string)
    requires Matches(s, p, w) && |w| > 0
    requires forall j | 0 <= j < |w| :: IsValidLetter(w[j])
    requires !IsValidLetter(CharAt(s, p + |w|))
    ensures Step(s, p) == Ok(Scanned(Token(LookupKind(w), w), p + |w|))
  {
    MatchesChar(s, p, w, 0);
    RunEndAt(s, p, p, IsBlank);
    forall j | p <= j < p + |w| ensures IsValidLetter(CharAt(s, j)) {
      MatchesChar(s, p, w, j - p);
    }
    RunEndAt(s, p, p + |w|, IsValidLetter);
    StepIdentifier(s, p);
  }

  /** A run of digits followed by a non-digit scans to an Int token. */
  lemma LexDigits(s: string, p: nat, w: string)
    requires Matches(s, p, w) && |w| > 0
    requires forall j | 0 <= j < |w| :: IsNumeric(w[j])
    requires !IsNumeric(CharAt(s, p + |w|))
    ensures Step(s, p) == Ok(Scanned(Token(Int, w), p + |w|))
  {
    MatchesChar(s, p, w, 0);
    RunEndAt(s, p, p, IsBlank);
    forall j | p <= j < p + |w| ensures IsNumeric(CharAt(s, j)) {
      MatchesChar(s, p, w, j - p);
    }
    RunEndAt(s, p, p + |w|, IsNumeric);
    StepNumber(s, p);
  }

  /** A single space before a non-blank is skipped. */
  lemma LexSpace(s: string, p: nat)
    requires CharAt(s, p) == ' ' && !IsBlank(CharAt(s, p + 1))
    ensures Step(s, p) == Step(s, p + 1)
  {
    RunEndAt(s, p, p + 1, IsBlank);
    RunEndAt(s, p + 1, p + 1, IsBlank);
    StepIgnoresBlanks(s, p);
    StepIgnoresBlanks(s, p + 1);
  }

  /** `=` followed by a space is an assignment. */
  lemma LexAssign(s: string, p: nat)
    requires CharAt(s, p) == '=' && CharAt(s, p + 1) == ' '
    ensures Step(s, p) == Ok(Scanned(Token(Assign, "="), p + 1))
  {
    RunEndAt(s, p, p, IsBlank);
    assert s[p..p + 1] == "=";
  }

  /** `;` is a Semicolon token. */
  lemma LexSemicolon(s: string, p: nat)
    requires CharAt(s, p) == ';'
    ensures Step(s, p) == Ok(Scanned(Token(Semicolon, ";"), p + 1))
  {
    RunEndAt(s, p, p, IsBlank);
    assert s[p..p + 1] == ";";
  }

  /**
   * Successive calls of next_token, starting at ps[0], return ts and stop at
   * the offsets ps, all inside the input. This is a prefix of a scan, where
   * Lexer.Traces is a whole scan whose last call goes past the end: a line's
   * tokens are chained in front of a stream that is not known yet.
   */
  ghost predicate Chain(s: string, ps: seq<nat>, ts: seq<Token>) {
    |ps| == |ts| + 1 && forall j | 0 <= j < |ts| :: Link(s, ps, ts, j)
  }

  /** The j-th call of the chain, from offset ps[j], returns ts[j] and stops inside the input at ps[j + 1]. */
  ghost predicate Link(s: string, ps: seq<nat>, ts: seq<Token>, j: nat) {
    j < |ts| && j + 1 < |ps| && ps[j + 1] <= |s| && Step(s, ps[j]) == Ok(Scanned(ts[j], ps[j + 1]))
  }

  /** The token stream from an offset, with ts in front of it; a fault stays a fault. */
  function Then(ts: seq<Token>, r: Result<seq<Token>>): Result<seq<Token>> {
    match r
    case Err(f) => Err(f)
    case Ok(rest) => Ok(ts + rest)
  }

  /** A chain of calls inside the input puts its tokens, from the i-th on, in front of the rest of the stream. */
  lemma {:induction false} LexChain(s: string, ps: seq<nat>, ts: seq<Token>, i: nat)
    requires Chain(s, ps, ts) && i <= |ts|
    ensures TokensFrom(s, ps[i]) == Then(ts[i..], TokensFrom(s, ps[|ts|]))
    decreases |ts| - i
  {
    if i < |ts| {
      assert Link(s, ps, ts, i);
      LexChain(s, ps, ts, i + 1);
      LexCons(s, ps[i], ts[i], ps[i + 1]);
      ThenCons(ts, i, TokensFrom(s, ps[|ts|]));
    } else {
      ThenNil(ts[i..], TokensFrom(s, ps[|ts|]));
    }
  }

  lemma ThenCons(ts: seq<Token>, i: nat, r: Result<seq<Token>>)
    requires i < |ts|
    ensures Then([ts[i]], Then(ts[i + 1..], r)) == Then(ts[i..], r)
  {
    assert ts[i..] == [ts[i]] + ts[i + 1..];
    if r.Ok? {
      AppendAssoc([ts[i]], ts[i + 1..], r.value);
    }
  }

  lemma ThenNil(ts: seq<Token>, r: Result<seq<Token>>)
    requires ts == []
    ensures Then(ts, r) == r
  {
    if r.Ok? {
      assert ts + r.value == r.value;
    }
  }

  lemma AppendAssoc<T>(a: seq<T>, b: seq<T>, c: seq<T>)
    ensures (a + b) + c == a + (b + c)
  {
  }

  /** One call inside the input puts its token in front of the rest of the stream. */
  lemma LexCons(s: string, p: nat, t: Token, next: nat)
    requires Step(s, p) == Ok(Scanned(t, next)) && next <= |s|
    ensures TokensFrom(s, p) == Then([t], TokensFrom(s, next))
  {
  }

  /** Where the pieces of `return 1337;` sit when its rendering is at offset k. */
  lemma ReturnPieces(s: string, k: nat)
    requires Matches(s, k, LineText(ReturnLine))
    ensures Matches(s, k, "return") && CharAt(s, k + 6) == ' '
    ensures Matches(s, k + 7, "1337") && CharAt(s, k + 11) == ';' && k + 12 <= |s|
  {
    MatchesSplit(s, k, "return" + " " + "1337", ";");
    MatchesSplit(s, k, "return" + " ", "1337");
    MatchesSplit(s, k, "return", " ");
    MatchesChar(s, k + 6, " ", 0);
    MatchesChar(s, k + 11, ";", 0);
  }

  /** The rendering of `return 1337;` at offset k scans to its three tokens, then the stream from e, where it ends. */
  lemma LexReturn(s: string, k: nat, e: nat)
    requires Matches(s, k, LineText(ReturnLine)) && e == k + |LineText(ReturnLine)|
    ensures TokensFrom(s, k) == Then(LineTokens(ReturnLine), TokensFrom(s, e))
  {
    ReturnPieces(s, k);
    LexReturnSteps(s, k);
    LexSteps3(s, k, k + 6, k + 11, e, Token(TokenKind.Return, "return"), Token(Int, "1337"), Token(Semicolon, ";"));
  }

  lemma LexReturnSteps(s: string, k: nat)
    requires Matches(s, k, "return") && CharAt(s, k + 6) == ' '
    requires Matches(s, k + 7, "1337") && CharAt(s, k + 11) == ';'
    ensures Step(s, k) == Ok(Scanned(Token(TokenKind.Return, "return"), k + 6))
    ensures Step(s, k + 6) == Ok(Scanned(Token(Int, "1337"), k + 11))
    ensures Step(s, k + 11) == Ok(Scanned(Token(Semicolon, ";"), k + 12))
  {
    MatchesChar(s, k + 7, "1337", 0);
    LexWord(s, k, "return");
    LexDigits(s, k + 7, "1337");
    LexSpace(s, k + 6);
    LexSemicolon(s, k + 11);
  }

  /** Three calls of next_token in a row, inside the input, put their tokens in front of the stream after them. */
  lemma LexSteps3(s: string, p0: nat, p1: nat, p2: nat, p3: nat, t0: Token, t1: Token, t2: Token)
    requires p3 <= |s| && Step(s, p0) == Ok(Scanned(t0, p1)) && Step(s, p1) == Ok(Scanned(t1, p2))
    requires Step(s, p2) == Ok(Scanned(t2, p3))
    ensures TokensFrom(s, p0) == Then([t0, t1, t2], TokensFrom(s, p3))
  {
    var ps, ts := [p0, p1, p2, p3], [t0, t1, t2];
    forall j | 0 <= j < 3 ensures Link(s, ps, ts, j) {
      // a case split: each branch fixes j, so the display's entries become the parameters
      if j == 0 {
      } else if j == 1 {
      } else {
      }
    }
    LexChain(s, ps, ts, 0);
    assert ts[0..] == ts;
  }

  /** Five calls of next_token in a row, inside the input, put their tokens in front of the stream after them. */
  lemma LexSteps5(s: string, p0: nat, p1: nat, p2: nat, p3: nat, p4: nat, p5: nat,
                  t0: Token, t1: Token, t2: Token, t3: Token, t4: Token)
    requires p5 <= |s| && Step(s, p0) == Ok(Scanned(t0, p1)) && Step(s, p1) == Ok(Scanned(t1, p2))
    requires Step(s, p2) == Ok(Scanned(t2, p3)) && Step(s, p3) == Ok(Scanned(t3, p4))
    requires Step(s, p4) == Ok(Scanned(t4, p5))
    ensures TokensFrom(s, p0) == Then([t0, t1, t2, t3, t4], TokensFrom(s, p5))
  {
    var ps, ts := [p0, p1, p2, p3, p4, p5], [t0, t1, t2, t3, t4];
    forall j | 0 <= j < 5 ensures Link(s, ps, ts, j) {
      // a case split, as in LexSteps3
      if j == 0 {
      } else if j == 1 {
      } else if j == 2 {
      } else if j == 3 {
      } else {
      }
    }
    LexChain(s, ps, ts, 0);
    assert ts[0..] == ts;
  }

  /** Where the pieces of `let n = 5;` sit when its rendering is at offset k. */
  lemma LetPieces(s: string, k: nat, n: string)
    requires Matches(s, k, LineText(LetLine(n)))
    ensures var q := k + 4 + |n|;
      Matches(s, k, "let") && CharAt(s, k + 3) == ' ' && Matches(s, k + 4, n) &&
      CharAt(s, q) == ' ' && CharAt(s, q + 1) == '=' && CharAt(s, q + 2) == ' ' &&
      Matches(s, q + 3, "5") && CharAt(s, q + 4) == ';' && q + 5 <= |s|
  {
    var q := k + 4 + |n|;
    MatchesSplit(s, k, "let" + " " + n + " " + "=" + " " + "5", ";");
    MatchesSplit(s, k, "let" + " " + n + " " + "=" + " ", "5");
    MatchesSplit(s, k, "let" + " " + n + " " + "=", " ");
    MatchesSplit(s, k, "let" + " " + n + " ", "=");
    MatchesSplit(s, k, "let" + " " + n, " ");
    MatchesSplit(s, k, "let" + " ", n);
    MatchesSplit(s, k, "let", " ");
    MatchesChar(s, k + 3, " ", 0);
    MatchesChar(s, q, " ", 0);
    MatchesChar(s, q + 1, "=", 0);
    MatchesChar(s, q + 2, " ", 0);
    MatchesChar(s, q + 4, ";", 0);
  }

  /** `let` and the blank after it: the first call of next_token over `let n = 5;` stops before the blank. */
  lemma LexLetKeyword(s: string, k: nat)
    requires Matches(s, k, "let") && CharAt(s, k + 3) == ' ' && !IsBlank(CharAt(s, k + 4))
    ensures Step(s, k) == Ok(Scanned(Token(TokenKind.Let, "let"), k + 3)) && Step(s, k + 3) == Step(s, k + 4)
  {
    LexWord(s, k, "let");
    LexSpace(s, k + 3);
  }

  /** A name followed by a non-letter scans to an identifier token. */
  lemma LexName(s: string, p: nat, n: string)
    requires IsName(n) && Matches(s, p, n) && !IsValidLetter(CharAt(s, p + |n|))
    ensures Step(s, p) == Ok(Scanned(Token(TokenKind.Ident, n), p + |n|)) && !IsBlank(CharAt(s, p))
  {
    MatchesChar(s, p, n, 0);
    LookupKindIdentIff(n);
    LexWord(s, p, n);
  }

  /** ` = 5;` at offset q: the last three calls of next_token over `let n = 5;`. */
  lemma LexLetValue(s: string, q: nat)
    requires CharAt(s, q) == ' ' && CharAt(s, q + 1) == '=' && CharAt(s, q + 2) == ' '
    requires Matches(s, q + 3, "5") && CharAt(s, q + 4) == ';'
    ensures Step(s, q) == Ok(Scanned(Token(Assign, "="), q + 2))
    ensures Step(s, q + 2) == Ok(Scanned(Token(Int, "5"), q + 4))
    ensures Step(s, q + 4) == Ok(Scanned(Token(Semicolon, ";"), q + 5))
  {
    MatchesChar(s, q + 3, "5", 0);
    LexSpace(s, q);
    LexAssign(s, q + 1);
    LexSpace(s, q + 2);
    LexDigits(s, q + 3, "5");
    LexSemicolon(s, q + 4);
  }

  /** The rendering of `let n = 5;` at offset k scans to its five tokens, then the stream from e, where it ends. */
  lemma LexLet(s: string, k: nat, n: string, e: nat)
    requires IsName(n) && Matches(s, k, LineText(LetLine(n))) && e == k + |LineText(LetLine(n))|
    ensures TokensFrom(s, k) == Then(LineTokens(LetLine(n)), TokensFrom(s, e))
  {
    var q := k + 4 + |n|;
    LetPieces(s, k, n);
    LexName(s, k + 4, n);
    LexLetKeyword(s, k);
    LexLetValue(s, q);
    LexLetChain(s, k, n, q, e);
  }

  lemma LexLetChain(s: string, k: nat, n: string, q: nat, e: nat)
    requires Step(s, k) == Ok(Scanned(Token(TokenKind.Let, "let"), k + 3))
    requires Step(s, k + 3) == Step(s, k + 4) && Step(s, k + 4) == Ok(Scanned(Token(TokenKind.Ident, n), q))
    requires Step(s, q) == Ok(Scanned(Token(Assign, "="), q + 2))
    requires Step(s, q + 2) == Ok(Scanned(Token(Int, "5"), q + 4))
    requires Step(s, q + 4) == Ok(Scanned(Token(Semicolon, ";"), e)) && e <= |s|
    ensures TokensFrom(s, k) == Then(LineTokens(LetLine(n)), TokensFrom(s, e))
  {
    LexSteps5(s, k, k + 3, q, q + 2, q + 4, e, Token(TokenKind.Let, "let"), Token(TokenKind.Ident, n),
              Token(Assign, "="), Token(Int, "5"), Token(Semicolon, ";"));
  }

  /** The pieces ws written one after the other. */
  function Flat<T>(ws: seq<seq<T>>): seq<T>
    decreases |ws|
  {
    if ws == [] then [] else ws[0] + Flat(ws[1..])
  }

  /** The offsets at which the pieces start when the first one starts at k, and where the last one ends. */
  function Starts<T>(ws: seq<seq<T>>, k: nat): (os: seq<nat>)
    ensures |os| == |ws| + 1 && os[0] == k && os[|ws|] == k + |Flat(ws)|
    decreases |ws|
  {
    if ws == [] then [k] else [k] + Starts(ws[1..], k + |ws[0]|)
  }

  lemma StartsCons<T>(ws: seq<seq<T>>, k: nat, m: nat)
    requires 0 < m <= |ws|
    ensures Starts(ws, k)[m] == Starts(ws[1..], k + |ws[0]|)[m - 1]
  {
  }

  /** Where the pieces are written from k, the m-th one sits at the m-th start and the next starts right after it. */
  lemma {:induction false} FlatAt<T>(s: seq<T>, k: nat, ws: seq<seq<T>>, m: nat)
    requires Matches(s, k, Flat(ws)) && m < |ws|
    ensures var os := Starts(ws, k);
      Matches(s, os[m], ws[m]) && os[m + 1] == os[m] + |ws[m]|
    decreases m
  {
    MatchesSplit(s, k, ws[0], Flat(ws[1..]));
    StartsCons(ws, k, m + 1);
    if m > 0 {
      FlatAt(s, k + |ws[0]|, ws[1..], m - 1);
      StartsCons(ws, k, m);
    }
  }

  // Texts and Toks split LinesText and LinesTokens into their per-line pieces, so
  // that the generic Flat, Starts and FlatAt locate line m in both the text and
  // the token stream; their ensures tie the pieces back to LinesText and LinesTokens.

  /** The renderings of the lines, one piece per line. */
  function Texts(ls: seq<Line>): (ws: seq<string>)
    ensures |ws| == |ls| && forall m | 0 <= m < |ls| :: ws[m] == LineText(ls[m])
    ensures Flat(ws) == LinesText(ls)
    decreases |ls|
  {
    if ls == [] then [] else
      var ws := [LineText(ls[0])] + Texts(ls[1..]);
      assert ws[1..] == Texts(ls[1..]);
      ws
  }

  /** The tokens of the lines, one piece per line. */
  function Toks(ls: seq<Line>): (ws: seq<seq<Token>>)
    ensures |ws| == |ls| && forall m | 0 <= m < |ls| :: ws[m] == LineTokens(ls[m])
    ensures Flat(ws) == LinesTokens(ls)
    decreases |ls|
  {
    if ls == [] then [] else
      var ws := [LineTokens(ls[0])] + Toks(ls[1..]);
      assert ws[1..] == Toks(ls[1..]);
      ws
  }

  /** A rendered line at offset k scans to its tokens, then the stream from e, where it ends. */
  lemma LexLine(s: string, k: nat, l: Line, e: nat)
    requires (l.LetLine? ==> IsName(l.name)) && Matches(s, k, LineText(l)) && e == k + |LineText(l)|
    ensures TokensFrom(s, k) == Then(LineTokens(l), TokensFrom(s, e))
  {
    if l.ReturnLine? {
      LexReturn(s, k, e);
    } else {
      LexLet(s, k, l.name, e);
    }
  }

  lemma LinesTokensSuffix(ls: seq<Line>, j: nat)
    requires j < |ls|
    ensures LinesTokens(ls[j..]) == LineTokens(ls[j]) + LinesTokens(ls[j + 1..])
  {
    assert ls[j..][1..] == ls[j + 1..];
  }

  /** Scans that each put one line's tokens in front of the next one's compose to the whole list. */
  lemma {:induction false} LexCompose(g: nat -> Result<seq<Token>>, os: seq<nat>, ls: seq<Line>, j: nat, fin: seq<Token>)
    requires |os| == |ls| + 1 && j <= |ls|
    requires forall m | 0 <= m < |ls| :: g(os[m]) == Then(LineTokens(ls[m]), g(os[m + 1]))
    requires g(os[|ls|]) == Ok(fin)
    ensures g(os[j]) == Ok(LinesTokens(ls[j..]) + fin)
    decreases |ls| - j
  {
    if j < |ls| {
      LexCompose(g, os, ls, j + 1, fin);
      LinesTokensSuffix(ls, j);
      AppendAssoc(LineTokens(ls[j]), LinesTokens(ls[j + 1..]), fin);
    } else {
      assert ls[j..] == [];
      assert LinesTokens(ls[j..]) + fin == fin;
    }
  }

  /** The m-th rendered line scans to its tokens, then the stream from where the next one starts. */
  lemma LexLineAt(s: string, ls: seq<Line>, m: nat)
    requires WellNamed(ls) && Matches(s, 0, LinesText(ls)) && m < |ls|
    ensures var os := Starts(Texts(ls), 0);
      TokensFrom(s, os[m]) == Then(LineTokens(ls[m]), TokensFrom(s, os[m + 1]))
  {
    var ws := Texts(ls);
    var os := Starts(ws, 0);
    FlatAt(s, 0, ws, m);
    LexLine(s, os[m], ls[m], os[m + 1]);
  }

  /** The rendering of a sequence of lines, as the whole input, scans to their tokens and the final Eof. */
  lemma LexLines(s: string, ls: seq<Line>)
    requires WellNamed(ls) && Matches(s, 0, LinesText(ls)) && |LinesText(ls)| == |s|
    ensures TokensFrom(s, 0) == Ok(LinesTokens(ls) + [EofToken])
  {
    var os := Starts(Texts(ls), 0);
    var g := (p: nat) => TokensFrom(s, p);
    forall m | 0 <= m < |ls| ensures g(os[m]) == Then(LineTokens(ls[m]), g(os[m + 1])) {
      LexLineAt(s, ls, m);
    }
    StepPastEnd(s, |s|);
    LexCompose(g, os, ls, 0, [EofToken]);
    assert ls[0..] == ls;
  }

  ghost predicate StartsLine(ts: seq<Token>, i: nat, l: Line) {
    (Tok(ts, i).kind == TokenKind.Let || Tok(ts, i).kind == TokenKind.Return) &&
    StmtAt(ts, i) == Some(StmtStep(LineStmt(l), [], i + |LineTokens(l)| - 1))
  }

  lemma MatchesTok(ts: seq<Token>, i: nat, w: seq<Token>)
    requires Matches(ts, i, w)
    ensures forall j | 0 <= j < |w| :: Tok(ts, i + j) == w[j]
  {
    forall j | 0 <= j < |w| ensures Tok(ts, i + j) == w[j] {
      assert ts[i..i + |w|][j] == ts[i + j];
    }
  }

  /** `return`, an Int and `;` at i: parse_return_stmt reads the Return of 1337 up to that `;`. */
  lemma ParseReturnLine(ts: seq<Token>, i: nat)
    requires i + 2 < |ts| && Tok(ts, i).kind == TokenKind.Return
    requires Tok(ts, i + 1).kind == Int && Tok(ts, i + 2).kind == Semicolon
    ensures StartsLine(ts, i, ReturnLine)
  {
    assert NextSemicolon(ts, i + 2) == Some(i + 2);
  }

  /** `let`, a name, `=`, an Int and `;` at i: parse_let_stmt binds that name up to that `;`. */
  lemma ParseLetLine(ts: seq<Token>, i: nat, n: string)
    requires i + 4 < |ts| && Tok(ts, i).kind == TokenKind.Let && Tok(ts, i + 1) == Token(TokenKind.Ident, n)
    requires Tok(ts, i + 2).kind == Assign && Tok(ts, i + 3).kind == Int && Tok(ts, i + 4).kind == Semicolon
    ensures StartsLine(ts, i, LetLine(n))
  {
    assert NextSemicolon(ts, i + 4) == Some(i + 4);
    assert NextSemicolon(ts, i + 3) == Some(i + 4);
    assert NextSemicolon(ts, i + 2) == Some(i + 4);
    LetShape(ts, i);
  }

  /** parse_let_stmt and parse_return_stmt read a line's tokens back as its statement, without error. */
  lemma ParseLine(ts: seq<Token>, i: nat, l: Line)
    requires Matches(ts, i, LineTokens(l))
    ensures StartsLine(ts, i, l)
  {
    var w := LineTokens(l);
    MatchesTok(ts, i, w);
    if l.ReturnLine? {
      assert Tok(ts, i) == w[0] && Tok(ts, i + 1) == w[1] && Tok(ts, i + 2) == w[2];
      ParseReturnLine(ts, i);
    } else {
      assert Tok(ts, i) == w[0] && Tok(ts, i + 1) == w[1] && Tok(ts, i + 2) == w[2] && Tok(ts, i + 3) == w[3] && Tok(ts, i + 4) == w[4];
      ParseLetLine(ts, i, l.name);
    }
  }


  /** A line read back at i: parse puts its statement, with no error, in front of the parse from e, where its tokens end. */
  lemma ParseLineStep(ts: seq<Token>, i: nat, l: Line, e: nat)
    requires StartsLine(ts, i, l) && e == i + |LineTokens(l)|
    ensures ParseFrom(ts, i) == Prepend([LineStmt(l)], [], ParseFrom(ts, e))
  {
  }

  lemma LineStmtsCons(ls: seq<Line>, j: nat)
    requires j < |ls|
    ensures LineStmts(ls[j..]) == [LineStmt(ls[j])] + LineStmts(ls[j + 1..])
  {
    assert ls[j..][1..] == ls[j + 1..];
  }

  /** Steps that each put one line's statement in front of the next one's compose to the whole list. */
  lemma {:induction false} ParseChain(f: nat -> Outcome, os: seq<nat>, ls: seq<Line>, j: nat, stop: nat)
    requires |os| == |ls| + 1 && j <= |ls|
    requires forall m | 0 <= m < |ls| :: f(os[m]) == Prepend([LineStmt(ls[m])], [], f(os[m + 1]))
    requires f(os[|ls|]) == Complete([], [], stop)
    ensures f(os[j]) == Complete(LineStmts(ls[j..]), [], stop)
    decreases |ls| - j
  {
    if j < |ls| {
      ParseChain(f, os, ls, j + 1, stop);
      LineStmtsCons(ls, j);
    } else {
      assert ls[j..] == [];
    }
  }

  /** The m-th line's tokens, inside all the lines' tokens and the final Eof, parse to its statement. */
  lemma ParseLineAt(ls: seq<Line>, m: nat)
    requires m < |ls|
    ensures var ts, os := LinesTokens(ls) + [EofToken], Starts(Toks(ls), 0);
      ParseFrom(ts, os[m]) == Prepend([LineStmt(ls[m])], [], ParseFrom(ts, os[m + 1]))
  {
    var ts, os := LinesTokens(ls) + [EofToken], Starts(Toks(ls), 0);
    ReadLineAt(ls, m);
    ParseLineStep(ts, os[m], ls[m], os[m + 1]);
  }

  /** The m-th line's tokens, inside all the lines' tokens and the final Eof, are read back as its statement. */
  lemma ReadLineAt(ls: seq<Line>, m: nat)
    requires m < |ls|
    ensures var ts, os := LinesTokens(ls) + [EofToken], Starts(Toks(ls), 0);
      StartsLine(ts, os[m], ls[m]) && os[m + 1] == os[m] + |LineTokens(ls[m])|
  {
    var ts, ws := LinesTokens(ls) + [EofToken], Toks(ls);
    assert ts[0..|Flat(ws)|] == Flat(ws);
    FlatAt(ts, 0, ws, m);
    ParseLine(ts, Starts(ws, 0)[m], ls[m]);
  }

  /** parse over the tokens of rendered lines and the final Eof gives their statements back, with no error. */
  lemma ParseLines(ls: seq<Line>)
    ensures var ts := LinesTokens(ls) + [EofToken];
      ParseFrom(ts, 0) == Complete(LineStmts(ls), [], |ts| - 1)
  {
    var ts := LinesTokens(ls) + [EofToken];
    var os := Starts(Toks(ls), 0);
    var f := (j: nat) => ParseFrom(ts, j);
    forall m | 0 <= m < |ls| ensures f(os[m]) == Prepend([LineStmt(ls[m])], [], f(os[m + 1])) {
      ParseLineAt(ls, m);
    }
    assert Tok(ts, |ts| - 1) == EofToken;
    ParseChain(f, os, ls, 0, |ts| - 1);
    assert ls[0..] == ls;
  }

  lemma LineTextAscii(l: Line)
    requires l.LetLine? ==> IsName(l.name)
    ensures IsAscii(LineText(l)) && |LineText(l)| > 0
  {
    if l.LetLine? {
      var w := LineText(l);
      forall i | 0 <= i < |w| ensures w[i] as int < 0x80 {
        if 4 <= i < 4 + |l.name| {
          assert w[i] == l.name[i - 4];
        }
      }
    }
  }

  lemma {:induction false} LinesTextAscii(ls: seq<Line>)
    requires WellNamed(ls)
    ensures IsAscii(LinesText(ls)) && (|LinesText(ls)| > 0 <==> |ls| > 0)
    decreases |ls|
  {
    if ls != [] {
      assert WellNamed(ls[1..]) by {
        forall j | 0 <= j < |ls| - 1 ensures ls[1..][j].LetLine? ==> IsName(ls[1..][j].name) {
          assert ls[1..][j] == ls[j + 1];
        }
      }
      LineTextAscii(ls[0]);
      LinesTextAscii(ls[1..]);
    }
  }

  /**
   * The rendering of a well-named program is an input Lexer::new accepts
   * (ASCII and non-empty) exactly when the program has a statement; the empty
   * program renders as the empty string, on which Lexer::new panics.
   */
  lemma RenderedIsInput(ls: seq<Line>)
    requires WellNamed(ls)
    ensures var s := ProgramText(Program(LineStmts(ls)));
      IsAscii(s) && (|s| > 0 <==> |ls| > 0)
  {
    LinesTextIsDisplay(ls);
    LinesTextAscii(ls);
  }

  /**
   * The round trip: the text Display writes for a program of well-formed
   * statements scans without a fault to their tokens and the final Eof, and
   * parse reads those tokens back as the same program, with no errors,
   * stopping at that Eof.
   */
  lemma RoundTrip(ls: seq<Line>)
    requires WellNamed(ls)
    ensures var s := ProgramText(Program(LineStmts(ls)));
      TokensFrom(s, 0) == Ok(LinesTokens(ls) + [EofToken]) &&
      ParseFrom(TokensFrom(s, 0).value, 0) == Complete(LineStmts(ls), [], |LinesTokens(ls)|)
  {
    var s := ProgramText(Program(LineStmts(ls)));
    LinesTextIsDisplay(ls);
    assert s[0..|s|] == s;
    LexLines(s, ls);
    ParseLines(ls);
  }
}
