/**
 * The statement parser: two tokens of lookahead (cur, peek) over the lexer,
 * an append-only error list, and panic-mode recovery to the next `;`.
 *
 * The pure functions below describe the parser over the token sequence the
 * lexer produces, read with Tok, which pads it with Eof; the class performs
 * the same steps on the live lexer and is proved against them.
 */
module Parser {
  import opened Tokens
  import opened Lexer
  import opened Ast

  datatype Option<T> = None | Some(value: T)

  /** A failed expect_peek: the kind required and the kind actually seen. */
  datatype ParseErr = ParseErr(expected: TokenKind, actual: TokenKind)

  /** A token sequence as TokensFrom returns it: ending with the final Eof. */
  predicate EndsWithEof(ts: seq<Token>) {
    |ts| > 0 && ts[|ts| - 1] == EofToken
  }

  /** The index of the first `;` at or after j; None when the skip loop would never stop. */
  function NextSemicolon(ts: seq<Token>, j: nat): (r: Option<nat>)
    ensures r.Some? ==> j <= r.value < |ts| && Tok(ts, r.value).kind == Semicolon
    decreases |ts| - j
  {
    if j >= |ts| then None
    else if ts[j].kind == Semicolon then Some(j)
    else NextSemicolon(ts, j + 1)
  }

  /** NextSemicolon finds the first `;`, and finds none exactly when none follows. */
  lemma {:induction false} NextSemicolonFirst(ts: seq<Token>, j: nat)
    ensures NextSemicolon(ts, j).Some? ==> forall k | j <= k < NextSemicolon(ts, j).value :: Tok(ts, k).kind != Semicolon
    ensures NextSemicolon(ts, j).None? ==> forall k: nat | j <= k :: Tok(ts, k).kind != Semicolon
    decreases |ts| - j
  {
    if j < |ts| && ts[j].kind != Semicolon {
      NextSemicolonFirst(ts, j + 1);
    }
  }

  /** What one statement rule produced: the statement, its errors, and the index of cur afterwards. */
  datatype StmtStep = StmtStep(stmt: Stmt, errors: seq<ParseErr>, next: nat)

  /** parse_let_stmt with cur at index i; None when no `;` remains for the skip loop (LetShape). */
  function LetSpec(ts: seq<Token>, i: nat): (r: Option<StmtStep>)
    requires Tok(ts, i).kind == TokenKind.Let
    ensures r.Some? ==> i <= r.value.next < |ts| && Tok(ts, r.value.next).kind == Semicolon
  {
    // first expect_peek(Ident)
    var ok1 := Tok(ts, i + 1).kind == TokenKind.Ident;
    var j1 := if ok1 then i + 1 else i;
    var e1 := if ok1 then [] else [ParseErr(TokenKind.Ident, Tok(ts, i + 1).kind)];
    var name := if Tok(ts, j1).kind == TokenKind.Ident then Some(Tok(ts, j1).literal) else None;
    // second expect_peek(Assign)
    var ok2 := Tok(ts, j1 + 1).kind == Assign;
    var j2 := if ok2 then j1 + 1 else j1;
    var e2 := e1 + if ok2 then [] else [ParseErr(Assign, Tok(ts, j1 + 1).kind)];
    match NextSemicolon(ts, j2)
    case None => None
    case Some(k) =>
      var isBad := !ok1 || !ok2;
      Some(StmtStep(if isBad then BadStmt else LetOf(name.value, 5), e2, k))
  }

  /**
   * What a `let` produces: Bad exactly when the tokens after `let` are not an
   * identifier and `=`; otherwise the binding of that identifier to the
   * placeholder 5. Each failed expect_peek contributes one error, so a `let`
   * adds 0, 1 or 2 errors, and the rule diverges exactly when no `;` follows.
   */
  lemma LetShape(ts: seq<Token>, i: nat)
    requires Tok(ts, i).kind == TokenKind.Let
    ensures LetSpec(ts, i).None? <==> NextSemicolon(ts, i + 1).None?
    ensures LetSpec(ts, i).Some? ==> var r := LetSpec(ts, i).value;
      (r.stmt == BadStmt <==> !(Tok(ts, i + 1).kind == TokenKind.Ident && Tok(ts, i + 2).kind == Assign)) &&
      (r.stmt != BadStmt ==> r.stmt == LetOf(Tok(ts, i + 1).literal, 5)) &&
      (Tok(ts, i + 1).kind == TokenKind.Ident ==>
        r.errors == if Tok(ts, i + 2).kind == Assign then [] else [ParseErr(Assign, Tok(ts, i + 2).kind)]) &&
      (Tok(ts, i + 1).kind != TokenKind.Ident ==>
        var k := Tok(ts, i + 1).kind;
        r.errors == [ParseErr(TokenKind.Ident, k)] + if k == Assign then [] else [ParseErr(Assign, k)])
  {
  }

  /** LetSpec read off from the indices where its two expect_peeks leave cur, and the errors e they record. */
  lemma LetSpecAt(ts: seq<Token>, i: nat, j1: nat, j2: nat, e: seq<ParseErr>)
    requires Tok(ts, i).kind == TokenKind.Let
    requires j1 == if Tok(ts, i + 1).kind == TokenKind.Ident then i + 1 else i
    requires j2 == if Tok(ts, j1 + 1).kind == Assign then j1 + 1 else j1
    requires e == (if j1 == i + 1 then [] else [ParseErr(TokenKind.Ident, Tok(ts, i + 1).kind)]) +
                  (if j2 == j1 + 1 then [] else [ParseErr(Assign, Tok(ts, j1 + 1).kind)])
    ensures LetSpec(ts, i).Some? <==> NextSemicolon(ts, j2).Some?
    ensures LetSpec(ts, i).Some? ==>
      LetSpec(ts, i).value == StmtStep(if j1 == i || j2 == j1 then BadStmt else LetOf(Tok(ts, j1).literal, 5), e, NextSemicolon(ts, j2).value)
  {
  }

  /** parse_return_stmt with cur at index i: always a Return of the placeholder, never an error. */
  function ReturnSpec(ts: seq<Token>, i: nat): (r: Option<StmtStep>)
    ensures r.None? <==> NextSemicolon(ts, i + 1).None?
    ensures r.Some? ==> i < r.value.next < |ts| && Tok(ts, r.value.next).kind == Semicolon
    ensures r.Some? ==> r.value.stmt == ReturnOf(1337) && r.value.errors == []
  {
    match NextSemicolon(ts, i + 1)
    case None => None
    case Some(k) => Some(StmtStep(ReturnOf(1337), [], k))
  }

  /** The result of parse: the statements, the errors, and the index of cur where the loop stopped. */
  datatype Outcome = Complete(stmts: seq<Stmt>, errors: seq<ParseErr>, stop: nat) | Diverges

  /** Puts one statement rule's output in front of the rest of the parse. */
  function Prepend(stmts: seq<Stmt>, errors: seq<ParseErr>, rest: Outcome): Outcome {
    match rest
    case Diverges => Diverges
    case Complete(s, e, stop) => Complete(stmts + s, errors + e, stop)
  }

  /** The statement rule parse dispatches to at index i, if cur starts a statement. */
  function StmtAt(ts: seq<Token>, i: nat): Option<StmtStep> {
    match Tok(ts, i).kind
    case Let => LetSpec(ts, i)
    case Return => ReturnSpec(ts, i)
    case _ => None
  }

  /** parse from cur at index i: one statement per Let/Return, stopping at any other token. */
  function ParseFrom(ts: seq<Token>, i: nat): (r: Outcome)
    ensures r.Complete? ==> i <= r.stop && Tok(ts, r.stop).kind != TokenKind.Let && Tok(ts, r.stop).kind != TokenKind.Return
    decreases |ts| - i
  {
    var k := Tok(ts, i).kind;
    if k == TokenKind.Let || k == TokenKind.Return then
      match StmtAt(ts, i)
      case None => Diverges
      case Some(s) => Prepend([s.stmt], s.errors, ParseFrom(ts, s.next + 1))
    else Complete([], [], i)
  }

  class Parser {
    const lex: Lexer
    var cur: Token
    var peek: Token
    var errors: seq<ParseErr>
    ghost var toks: seq<Token>     // everything the lexer yields from construction on
    ghost var offsets: seq<nat>    // the lexer's offset before each of them, and after the last
    ghost var idx: nat             // the index of cur in toks

    /** cur and peek are tokens idx and idx + 1 of the stream, and the lexer is about to scan token idx + 2. */
    ghost predicate Valid()
      reads this, lex
    {
      lex.Valid() && EndsWithEof(toks) && Traces(lex.input, offsets, toks)
      && lex.pos == OffsetAt(offsets, idx + 2)
      && cur == Tok(toks, idx) && peek == Tok(toks, idx + 1)
    }

    /** Parser::new: primes cur and peek with the lexer's next two tokens. */
    constructor (l: Lexer)
      requires l.Valid() && l.Pending().Ok?
      modifies l
      ensures Valid() && lex == l && errors == []
      ensures toks == old(l.Pending().value) && idx == 0
    {
      ghost var ts := l.Pending().value;
      ghost var ps := Trace(l.input, l.pos);
      TraceTraces(l.input, l.pos);
      TracesStep(l.input, ps, ts, 0);
      var c := l.NextToken();
      TracesStep(l.input, ps, ts, 1);
      var p := l.NextToken();
      lex := l;
      cur := c.value;
      peek := p.value;
      errors := [];
      toks := ts;
      offsets := ps;
      idx := 0;
    }

    /** next_token: cur takes peek's place and peek is pulled from the lexer. */
    method NextToken()
      requires Valid()
      modifies this, lex
      ensures Valid() && toks == old(toks) && errors == old(errors)
      ensures idx == old(idx) + 1 && cur == old(peek)
    {
      TracesStep(lex.input, offsets, toks, idx + 2);
      cur := peek;
      var t := lex.NextToken();
      peek := t.value;
      idx := idx + 1;
    }

    /**
     * expect_peek: on a match consume the token and report success; otherwise
     * record exactly one error and leave cur, peek and the lexer as they are.
     */
    method ExpectPeek(t: TokenKind) returns (ok: bool)
      requires Valid()
      modifies this, lex
      ensures Valid() && toks == old(toks)
      ensures ok <==> old(peek).kind == t
      ensures ok ==> idx == old(idx) + 1 && cur == old(peek) && errors == old(errors)
      ensures !ok ==> idx == old(idx) && cur == old(cur) && peek == old(peek)
      ensures !ok ==> errors == old(errors) + [ParseErr(t, old(peek).kind)] && unchanged(lex)
    {
      var peeked := peek;
      ok := peeked.kind == t;
      if ok {
        NextToken();
      } else {
        errors := errors + [ParseErr(t, peeked.kind)];
      }
    }

    /** The skip loop of both statement rules: advance until cur is `;`. */
    method SkipToSemicolon()
      requires Valid() && NextSemicolon(toks, idx).Some?
      modifies this, lex
      ensures Valid() && toks == old(toks) && errors == old(errors)
      ensures idx == NextSemicolon(toks, old(idx)).value && cur.kind == Semicolon
    {
      ghost var k := NextSemicolon(toks, idx).value;
      NextSemicolonFirst(toks, idx);
      while cur.kind != Semicolon
        invariant Valid() && toks == old(toks) && errors == old(errors)
        invariant old(idx) <= idx <= k
        decreases k - idx
      {
        NextToken();
      }
    }

    /**
     * The two expect_peeks of parse_let_stmt, an identifier and then `=`: j1
     * is where the first leaves cur, and the statement is Bad when either fails.
     */
    method ExpectLetHead() returns (isBad: bool, name: Option<string>, ghost j1: nat)
      requires Valid()
      modifies this, lex
      ensures Valid() && toks == old(toks)
      ensures var i := old(idx);
        j1 == (if Tok(toks, i + 1).kind == TokenKind.Ident then i + 1 else i) &&
        idx == (if Tok(toks, j1 + 1).kind == Assign then j1 + 1 else j1) &&
        errors == old(errors) + (if j1 == i + 1 then [] else [ParseErr(TokenKind.Ident, Tok(toks, i + 1).kind)]) +
                                (if idx == j1 + 1 then [] else [ParseErr(Assign, Tok(toks, j1 + 1).kind)]) &&
        (isBad <==> j1 == i || idx == j1) && (!isBad ==> name == Some(Tok(toks, j1).literal))
    {
      isBad := false;
      var ok := ExpectPeek(TokenKind.Ident);
      if !ok {
        isBad := true;
      }
      j1 := idx;
      name := if cur.kind == TokenKind.Ident then Some(cur.literal) else None;
      ok := ExpectPeek(Assign);
      if !ok {
        isBad := true;
      }
    }

    /** parse_let_stmt, with cur on `let`. */
    method ParseLetStmt() returns (s: Stmt)
      requires Valid() && cur.kind == TokenKind.Let && LetSpec(toks, idx).Some?
      modifies this, lex
      ensures Valid() && toks == old(toks)
      ensures var r := LetSpec(toks, old(idx)).value;
        s == r.stmt && errors == old(errors) + r.errors && idx == r.next
    {
      ghost var i, e0 := idx, errors;
      var isBad, name, j1 := ExpectLetHead();
      LetSpecAt(toks, i, j1, idx, errors[|e0|..]);
      SkipToSemicolon();
      if isBad {
        s := BadStmt;
      } else {
        s := LetOf(name.value, 5);
      }
    }

    /** parse_return_stmt, with cur on `return`. */
    method ParseReturnStmt() returns (s: Stmt)
      requires Valid() && ReturnSpec(toks, idx).Some?
      modifies this, lex
      ensures Valid() && toks == old(toks)
      ensures var r := ReturnSpec(toks, old(idx)).value;
        s == r.stmt && errors == old(errors) + r.errors && idx == r.next
    {
      NextToken();
      SkipToSemicolon();
      s := ReturnOf(1337);
    }

    /** The Let and Return arms of parse's match: dispatch on cur to the statement rule. */
    method ParseStatement() returns (s: Stmt)
      requires Valid() && StmtAt(toks, idx).Some?
      modifies this, lex
      ensures Valid() && toks == old(toks)
      ensures var r := StmtAt(toks, old(idx)).value;
        s == r.stmt && errors == old(errors) + r.errors && idx == r.next
    {
      if cur.kind == TokenKind.Let {
        s := ParseLetStmt();
      } else {
        s := ParseReturnStmt();
      }
    }

    /**
     * One turn of parse's loop, with stmts parsed so far: a statement, then the
     * next_token after it. The statements and errors so far, put in front of
     * the parse from cur, stay what they were.
     */
    method ParseTurn(ghost stmts: seq<Stmt>) returns (s: Stmt)
      requires Valid() && (cur.kind == TokenKind.Let || cur.kind == TokenKind.Return)
      requires Prepend(stmts, errors, ParseFrom(toks, idx)).Complete?
      modifies this, lex
      ensures Valid() && toks == old(toks) && old(idx) < idx
      ensures Prepend(stmts + [s], errors, ParseFrom(toks, idx)) == Prepend(stmts, old(errors), ParseFrom(toks, old(idx)))
    {
      ghost var ts, i, e0 := toks, idx, errors;
      ParseDispatches(ts, i, stmts, e0);
      ghost var st := StmtAt(ts, i).value;
      s := ParseStatement();
      NextToken();
      ParseStep(ts, i, stmts, e0, st, s, errors, idx);
    }

    /** parse: statements until cur is Eof or does not start a statement. */
    method Parse() returns (p: Program)
      requires Valid() && ParseFrom(toks, idx).Complete?
      modifies this, lex
      ensures Valid() && toks == old(toks)
      ensures var r := ParseFrom(toks, old(idx));
        p.stmts == r.stmts && errors == old(errors) + r.errors && idx == r.stop
    {
      p := Program([]);
      ghost var goal := Prepend([], errors, ParseFrom(toks, idx));
      while cur.kind == TokenKind.Let || cur.kind == TokenKind.Return
        invariant Valid() && toks == old(toks)
        invariant goal == Prepend(p.stmts, errors, ParseFrom(toks, idx))
        decreases |toks| - idx
      {
        var s := ParseTurn(p.stmts);
        p := Program(p.stmts + [s]);
      }
      assert p.stmts + [] == p.stmts && errors + [] == errors;
      assert [] + ParseFrom(toks, old(idx)).stmts == ParseFrom(toks, old(idx)).stmts;
    }
  }

  /** Where parse goes on without diverging, cur at a Let or Return starts a statement rule that returns. */
  lemma ParseDispatches(ts: seq<Token>, i: nat, stmts: seq<Stmt>, errors: seq<ParseErr>)
    requires Tok(ts, i).kind == TokenKind.Let || Tok(ts, i).kind == TokenKind.Return
    requires Prepend(stmts, errors, ParseFrom(ts, i)).Complete?
    ensures StmtAt(ts, i).Some?
  {
  }

  /**
   * One turn of the parse loop: the statement st at i, its errors and the
   * next_token after its `;`, put in front of the rest of the parse, are the
   * parse from i.
   */
  lemma ParseStep(ts: seq<Token>, i: nat, stmts: seq<Stmt>, e0: seq<ParseErr>, st: StmtStep, s: Stmt, e: seq<ParseErr>, j: nat)
    requires Tok(ts, i).kind == TokenKind.Let || Tok(ts, i).kind == TokenKind.Return
    requires StmtAt(ts, i) == Some(st) && s == st.stmt && e == e0 + st.errors && j == st.next + 1
    ensures i < j && Prepend(stmts + [s], e, ParseFrom(ts, j)) == Prepend(stmts, e0, ParseFrom(ts, i))
  {
    StmtFacts(ts, i);
    assert ParseFrom(ts, i) == Prepend([s], st.errors, ParseFrom(ts, j));
    PrependAssoc(stmts, e0, [s], st.errors, ParseFrom(ts, j));
  }

  lemma PrependAssoc(s1: seq<Stmt>, e1: seq<ParseErr>, s2: seq<Stmt>, e2: seq<ParseErr>, o: Outcome)
    ensures Prepend(s1, e1, Prepend(s2, e2, o)) == Prepend(s1 + s2, e1 + e2, o)
  {
    match o
    case Diverges =>
    case Complete(s, e, stop) =>
      assert s1 + (s2 + s) == (s1 + s2) + s;
      assert e1 + (e2 + e) == (e1 + e2) + e;
  }

  /** The statements parse can produce: Bad, a `let` of the placeholder 5, or `return` of the placeholder 1337. */
  predicate ParsedShape(s: Stmt) {
    s == BadStmt || s == ReturnOf(1337) || (s.node.Let? && s == LetOf(s.node.letStmt.name.name, 5))
  }

  /** The number of Bad statements in ss. */
  function CountBad(ss: seq<Stmt>): nat {
    if ss == [] then 0 else (if ss[0] == BadStmt then 1 else 0) + CountBad(ss[1..])
  }

  /** CountBad is zero exactly when no statement is Bad. */
  lemma {:induction false} CountBadZero(ss: seq<Stmt>)
    ensures CountBad(ss) == 0 <==> forall k | 0 <= k < |ss| :: ss[k] != BadStmt
  {
    if ss != [] {
      CountBadZero(ss[1..]);
      if CountBad(ss) == 0 {
        forall k | 0 <= k < |ss| ensures ss[k] != BadStmt {
          if k > 0 {
            assert ss[k] == ss[1..][k - 1];
          }
        }
      } else if ss[0] != BadStmt {
        var k :| 0 <= k < |ss[1..]| && ss[1..][k] == BadStmt;
        assert ss[k + 1] == BadStmt;
      }
    }
  }

  /** What one statement rule returns: a parsed shape, one or two errors if Bad, none otherwise. */
  lemma StmtFacts(ts: seq<Token>, i: nat)
    requires StmtAt(ts, i).Some?
    ensures var st := StmtAt(ts, i).value;
      ParsedShape(st.stmt) && i < st.next + 1 &&
      (st.stmt == BadStmt ==> 1 <= |st.errors| <= 2) && (st.stmt != BadStmt ==> st.errors == [])
  {
    if Tok(ts, i).kind == TokenKind.Let {
      LetShape(ts, i);
    }
  }

  /** The facts of ParseFromFacts carry over from the rest of the parse to one more statement in front of it. */
  lemma FactsCons(s: Stmt, e: seq<ParseErr>, ss: seq<Stmt>, es: seq<ParseErr>)
    requires ParsedShape(s) && (s == BadStmt ==> 1 <= |e| <= 2) && (s != BadStmt ==> e == [])
    requires (forall k | 0 <= k < |ss| :: ParsedShape(ss[k])) && CountBad(ss) <= |es| <= 2 * CountBad(ss)
    ensures var ss', es' := [s] + ss, e + es;
      (forall k | 0 <= k < |ss'| :: ParsedShape(ss'[k])) && CountBad(ss') <= |es'| <= 2 * CountBad(ss')
  {
    var ss' := [s] + ss;
    assert ss'[1..] == ss;
    forall k | 0 <= k < |ss'| ensures ParsedShape(ss'[k]) {
      if k > 0 {
        assert ss'[k] == ss[k - 1];
      }
    }
  }

  /**
   * What parse returns when it stops: only statements of the parsed shapes; one
   * or two errors per Bad statement and none for the others; and at least one
   * token per statement.
   */
  lemma {:induction false} ParseFromFacts(ts: seq<Token>, i: nat)
    requires ParseFrom(ts, i).Complete?
    ensures var r := ParseFrom(ts, i);
      (forall k | 0 <= k < |r.stmts| :: ParsedShape(r.stmts[k])) &&
      CountBad(r.stmts) <= |r.errors| <= 2 * CountBad(r.stmts) &&
      |r.stmts| <= r.stop - i
    decreases |ts| - i
  {
    var k := Tok(ts, i).kind;
    if k == TokenKind.Let || k == TokenKind.Return {
      var st := StmtAt(ts, i).value;
      var rest := ParseFrom(ts, st.next + 1);
      assert ParseFrom(ts, i) == Prepend([st.stmt], st.errors, rest);
      StmtFacts(ts, i);
      ParseFromFacts(ts, st.next + 1);
      FactsCons(st.stmt, st.errors, rest.stmts, rest.errors);
    }
  }

  /** parse reports no error exactly when it produced no Bad statement. */
  lemma ParseErrorsIffBad(ts: seq<Token>, i: nat)
    requires ParseFrom(ts, i).Complete?
    ensures var r := ParseFrom(ts, i);
      r.errors == [] <==> forall k | 0 <= k < |r.stmts| :: r.stmts[k] != BadStmt
  {
    ParseFromFacts(ts, i);
    CountBadZero(ParseFrom(ts, i).stmts);
  }
}
