/** The token data model: the kinds of token the scanner distinguishes, the
    decoded literal a token may carry, the immutable token record and its
    textual rendering. */
module Tokens {

  import opened Wrappers

  /** One constructor per token kind the scanner can emit. */
  datatype TokenType =
    // single-character tokens
    | LeftParen | RightParen | LeftBrace | RightBrace
    | Comma | Dot | Minus | Plus | Semicolon | Slash | Star
    // one- or two-character tokens
    | Bang | BangEqual | Equal | EqualEqual
    | Greater | GreaterEqual | Less | LessEqual
    // literal-bearing tokens
    | Identifier | String | Number
    // reserved words
    | And | Class | Else | False | Fun | For | If | Nil | Or
    | Print | Return | Super | This | True | Var | While
    // end of input
    | Eof
  {
    /** The sixteen reserved-word kinds. */
    predicate Reserved() {
      match this
      case And | Class | Else | False | Fun | For | If | Nil | Or => true
      case Print | Return | Super | This | True | Var | While => true
      case _ => false
    }

    /** Kinds whose lexeme is always the same text. */
    predicate FixedSpelling() {
      !(Identifier? || String? || Number? || Eof?)
    }

    /** The one text a fixed-spelling kind is written as (empty for the others). */
    function Spelling(): string {
      match this
      case LeftParen => "("
      case RightParen => ")"
      case LeftBrace => "{"
      case RightBrace => "}"
      case Comma => ","
      case Dot => "."
      case Minus => "-"
      case Plus => "+"
      case Semicolon => ";"
      case Slash => "/"
      case Star => "*"
      case Bang => "!"
      case BangEqual => "!="
      case Equal => "="
      case EqualEqual => "=="
      case Greater => ">"
      case GreaterEqual => ">="
      case Less => "<"
      case LessEqual => "<="
      case And => "and"
      case Class => "class"
      case Else => "else"
      case False => "false"
      case Fun => "fun"
      case For => "for"
      case If => "if"
      case Nil => "nil"
      case Or => "or"
      case Print => "print"
      case Return => "return"
      case Super => "super"
      case This => "this"
      case True => "true"
      case Var => "var"
      case While => "while"
      case Identifier | String | Number | Eof => ""
    }

    /** The name of the enum constant, which is how the kind renders as text. */
    function Name(): string {
      match this
      case LeftParen => "LEFT_PAREN"
      case RightParen => "RIGHT_PAREN"
      case LeftBrace => "LEFT_BRACE"
      case RightBrace => "RIGHT_BRACE"
      case Comma => "COMMA"
      case Dot => "DOT"
      case Minus => "MINUS"
      case Plus => "PLUS"
      case Semicolon => "SEMICOLON"
      case Slash => "SLASH"
      case Star => "STAR"
      case Bang => "BANG"
      case BangEqual => "BANG_EQUAL"
      case Equal => "EQUAL"
      case EqualEqual => "EQUAL_EQUAL"
      case Greater => "GREATER"
      case GreaterEqual => "GREATER_EQUAL"
      case Less => "LESS"
      case LessEqual => "LESS_EQUAL"
      case Identifier => "IDENTIFIER"
      case String => "STRING"
      case Number => "NUMBER"
      case And => "AND"
      case Class => "CLASS"
      case Else => "ELSE"
      case False => "FALSE"
      case Fun => "FUN"
      case For => "FOR"
      case If => "IF"
      case Nil => "NIL"
      case Or => "OR"
      case Print => "PRINT"
      case Return => "RETURN"
      case Super => "SUPER"
      case This => "THIS"
      case True => "TRUE"
      case Var => "VAR"
      case While => "WHILE"
      case Eof => "EOF"
    }
  }

  /** The decoded value a token may carry. A number keeps its exact decimal
      digits: the digits before the point and the (possibly empty) digits
      after it. */
  datatype Literal = Absent | Str(text: string) | Num(whole: string, fraction: string)

  /** An immutable token: its kind, the exact source text, its literal and its line. */
  datatype Token = Token(kind: TokenType, lexeme: string, literal: Literal, line: int)

  /** A kind's name is a single word. */
  lemma NameIsOneWord(k: TokenType)
    ensures ' ' !in k.Name()
  {
  }

  /** How a literal renders inside `ToString`: an absent literal prints as
      `null`, a string as its own text, and a number through `showNumber`,
      which stands for the platform's rendering of a floating-point value. */
  function RenderLiteral(lit: Literal, showNumber: (string, string) -> string): (s: string)
    ensures lit.Absent? ==> s == "null"
    ensures lit.Str? ==> s == lit.text
  {
    match lit
    case Absent => "null"
    case Str(text) => text
    case Num(whole, fraction) => showNumber(whole, fraction)
  }

  /** The text before the first space of `s` (all of `s` if it has none). */
  function FirstWord(s: string): (w: string)
    ensures w <= s
    ensures ' ' !in w
  {
    if s == [] || s[0] == ' ' then [] else [s[0]] + FirstWord(s[1..])
  }

  /** The diagnostic rendering of a token: kind, lexeme and literal joined by single spaces. */
  function ToString(t: Token, showNumber: (string, string) -> string): (s: string)
    ensures |s| == |t.kind.Name()| + |t.lexeme| + |RenderLiteral(t.literal, showNumber)| + 2
    ensures s[|t.kind.Name()|] == ' ' && s[|s| - |RenderLiteral(t.literal, showNumber)| - 1] == ' '
    ensures s[|t.kind.Name()| + 1 .. |s| - |RenderLiteral(t.literal, showNumber)| - 1] == t.lexeme
    ensures s[..|t.kind.Name()|] == t.kind.Name()
    ensures s[|s| - |RenderLiteral(t.literal, showNumber)|..] == RenderLiteral(t.literal, showNumber)
    ensures t.literal.Absent? ==> s[|s| - 4..] == "null"
    ensures t.literal.Str? ==> s[|s| - |t.literal.text|..] == t.literal.text
  {
    t.kind.Name() + " " + t.lexeme + " " + RenderLiteral(t.literal, showNumber)
  }

  lemma {:induction false} FirstWordOfJoin(a: string, b: string)
    requires ' ' !in a
    ensures FirstWord(a + " " + b) == a
  {
    if a != [] {
      assert (a + " " + b)[1..] == a[1..] + " " + b;
      FirstWordOfJoin(a[1..], b);
    }
  }

  /** The first space-separated word of a token's rendering is its kind's name. */
  lemma ToStringNamesKind(t: Token, showNumber: (string, string) -> string)
    ensures FirstWord(ToString(t, showNumber)) == t.kind.Name()
  {
    NameIsOneWord(t.kind);
    FirstWordOfJoin(t.kind.Name(), t.lexeme + " " + RenderLiteral(t.literal, showNumber));
    assert t.kind.Name() + " " + (t.lexeme + " " + RenderLiteral(t.literal, showNumber))
        == ToString(t, showNumber);
  }
}
