/** Lexical categories and the keyword table of the Monkey front end. */
module Tokens {

  /** The closed set of token kinds the lexer produces and the parser consumes. */
  datatype TokenKind =
    | Illegal | Eof | Ident | Int
    | Assign | Eq | NotEq | Plus | Minus | Bang | Asterisk | Slash | Lt | Gt
    | Comma | Semicolon | Lparen | Rparen | Lbrace | Rbrace
    | Function | Let | If | Else | True | False | Return

  /** A token: its kind and the slice of the input it was scanned from. */
  datatype Token = Token(kind: TokenKind, literal: string)

  /** The token the lexer returns at the end of the input. */
  const EofToken: Token := Token(Eof, "")

  /** The seven reserved words. */
  predicate IsKeyword(k: TokenKind) {
    k in {Function, Let, If, Else, True, False, Return}
  }

  /** How a reserved word is spelled in the source text. */
  function Spelling(k: TokenKind): string
    requires IsKeyword(k)
  {
    match k
    case Function => "fn"
    case Let => "let"
    case If => "if"
    case True => "true"
    case False => "false"
    case Else => "else"
    case Return => "return"
    case _ => ""
  }

  /** Classifies an identifier run: a reserved word gets its own kind, anything else is Ident. */
  function LookupKind(s: string): TokenKind {
    match s
    case "fn" => Function
    case "let" => Let
    case "if" => If
    case "true" => True
    case "false" => False
    case "else" => Else
    case "return" => Return
    case _ => Ident
  }

  /** The kind is Ident or a reserved word, and a reserved word only for its own spelling. */
  lemma LookupKindShape(s: string)
    ensures LookupKind(s) == Ident || IsKeyword(LookupKind(s))
    ensures IsKeyword(LookupKind(s)) ==> Spelling(LookupKind(s)) == s
  {
  }

  /** Every reserved word is recognised by its spelling (the converse of LookupKind's contract). */
  lemma LookupKindOfSpelling(k: TokenKind)
    requires IsKeyword(k)
    ensures LookupKind(Spelling(k)) == k
  {
  }

  /** A string is reserved exactly when it spells a keyword; anything else is an identifier. */
  lemma LookupKindIdentIff(s: string)
    ensures LookupKind(s) == Ident <==> forall k :: IsKeyword(k) ==> Spelling(k) != s
  {
    LookupKindShape(s);
    if LookupKind(s) == Ident {
      forall k | IsKeyword(k) ensures Spelling(k) != s {
        LookupKindOfSpelling(k);
      }
    }
  }

  /** Matching is exact and case-sensitive. */
  lemma LookupKindCaseSensitive()
    ensures LookupKind("Let") == Ident && LookupKind("function") == Ident
    ensures LookupKind("FN") == Ident && LookupKind("returns") == Ident
  {
  }
}
