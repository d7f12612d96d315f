/** The syntax tree the parser builds, and its text rendering (the Display impls). */
module Ast {
  import opened Lexer

  newtype i32 = x: int | -0x8000_0000 <= x < 0x8000_0000

  datatype Ident = Ident(name: string)

  /** ExprKind: an integer literal or a name (ExprKind::Ident). */
  datatype ExprKind = Literal(value: i32) | Name(name: string)

  datatype Expr = Expr(node: ExprKind)

  datatype LetStmt = LetStmt(name: Ident, value: Expr)

  datatype ReturnStmt = ReturnStmt(value: Expr)

  datatype StmtKind = Bad | Let(letStmt: LetStmt) | Return(returnStmt: ReturnStmt)

  datatype Stmt = Stmt(node: StmtKind)

  datatype Program = Program(stmts: seq<Stmt>)

  /** `let name = <literal>;` as a tree. */
  function LetOf(name: string, value: i32): Stmt {
    Stmt(StmtKind.Let(LetStmt(Ident.Ident(name), Expr(Literal(value)))))
  }

  /** `return <literal>;` as a tree. */
  function ReturnOf(value: i32): Stmt {
    Stmt(StmtKind.Return(ReturnStmt(Expr(Literal(value)))))
  }

  const BadStmt: Stmt := Stmt(Bad)

  function DigitChar(d: nat): (c: char)
    requires d < 10
    ensures IsNumeric(c)
  {
    ('0' as int + d) as char
  }

  /** The value a string of decimal digits denotes: the reference meaning of a numeral. */
  function DigitsValue(s: string): nat
    requires forall i | 0 <= i < |s| :: IsNumeric(s[i])
  {
    if s == [] then 0
    else
      assert IsNumeric(s[|s| - 1]);
      DigitsValue(s[..|s| - 1]) * 10 + (s[|s| - 1] as int - '0' as int)
  }

  /** The decimal numeral of n, as `{}` formats an unsigned value. */
  function NatText(n: nat): (s: string)
    ensures |s| > 0 && forall i | 0 <= i < |s| :: IsNumeric(s[i])
  {
    if n < 10 then [DigitChar(n)] else NatText(n / 10) + [DigitChar(n % 10)]
  }

  /** The decimal numeral of n with a leading `-` when negative, as `{}` formats an i32. */
  function IntText(n: int): string {
    if n < 0 then "-" + NatText(-n) else NatText(n)
  }

  /** Display for Expr and ExprKind. */
  function ExprText(e: Expr): string {
    match e.node
    case Literal(v) => IntText(v as int)
    case Name(s) => s
  }

  /** Display for Ident. */
  function IdentText(i: Ident): string {
    i.name
  }

  /** Display for Stmt and StmtKind. */
  function StmtText(s: Stmt): string {
    match s.node
    case Bad => "Bad!"
    case Let(l) => "let " + IdentText(l.name) + " = " + ExprText(l.value) + ";"
    case Return(r) => "return " + ExprText(r.value) + ";"
  }

  /** The statements rendered one after another, with no separator. */
  function StmtsText(ss: seq<Stmt>): string {
    if ss == [] then "" else StmtText(ss[0]) + StmtsText(ss[1..])
  }

  /** Display for Program. */
  function ProgramText(p: Program): string {
    StmtsText(p.stmts)
  }

  /** Rendering a sequence of statements is rendering its parts and concatenating. */
  lemma {:induction false} StmtsTextAppend(a: seq<Stmt>, b: seq<Stmt>)
    ensures StmtsText(a + b) == StmtsText(a) + StmtsText(b)
    decreases |a|
  {
    if a == [] {
      assert a + b == b;
    } else {
      assert (a + b)[0] == a[0] && (a + b)[1..] == a[1..] + b;
      StmtsTextAppend(a[1..], b);
      var x, y, z := StmtText(a[0]), StmtsText(a[1..]), StmtsText(b);
      assert x + (y + z) == (x + y) + z;
    }
  }

  /** Program's fmt: writes each statement in order into the output. */
  method WriteProgram(p: Program) returns (out: string)
    ensures out == ProgramText(p)
  {
    out := "";
    var i := 0;
    while i < |p.stmts|
      invariant 0 <= i <= |p.stmts|
      invariant out == StmtsText(p.stmts[..i])
    {
      StmtsTextAppend(p.stmts[..i], [p.stmts[i]]);
      assert p.stmts[..i + 1] == p.stmts[..i] + [p.stmts[i]];
      assert StmtsText([p.stmts[i]]) == StmtText(p.stmts[i]) + StmtsText([]);
      out := out + StmtText(p.stmts[i]);
      i := i + 1;
    }
    assert p.stmts[..i] == p.stmts;
  }

  /** The numeral of n denotes n: NatText and DigitsValue are inverse. */
  lemma {:induction false} NatTextValue(n: nat)
    ensures DigitsValue(NatText(n)) == n
  {
    if n >= 10 {
      var s := NatText(n / 10);
      NatTextValue(n / 10);
      var t := s + [DigitChar(n % 10)];
      assert t[..|t| - 1] == s;
    }
  }

  /** How the statements the parser produces render. */
  lemma RenderLet()
    ensures StmtText(LetOf("x", 5)) == "let x = 5;"
  {
  }

  lemma RenderReturn()
    ensures StmtText(ReturnOf(1337)) == "return 1337;"
    ensures StmtText(ReturnOf(-7)) == "return -7;"
  {
    assert NatText(1337) == NatText(133) + "7";
    assert NatText(133) == "133";
  }

  /** A program renders as its statements back to back. */
  lemma RenderProgram()
    ensures ProgramText(Program([LetOf("x", 5), BadStmt])) == "let x = 5;Bad!"
  {
    RenderLet();
    var ss := [LetOf("x", 5), BadStmt];
    assert ss[1..] == [BadStmt] && ss[1..][1..] == [];
    assert StmtsText(ss[1..]) == "Bad!";
  }
}
