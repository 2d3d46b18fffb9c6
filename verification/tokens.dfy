/** Tokens shared by the lexer and the parser. The kinds are the ones the
    two components use (the enumeration in include/token.h lags behind:
    the parser also consumes kinds such as OR, LBRACKET or CLASS that no
    lexer of this repository produces). */
module Tokens {

  datatype Kind =
    | APP | WINDOW | FUNC | EXPOSE | CONNECT | PACKAGE | SH | FOR | IN | SET
    | WHILE | IF | ELIF | ELSE | TRUE | FALSE
    | CLASS | INIT | NEW | THIS | TRY | CATCH | RETURN | BREAK | CONTINUE
    | IMPORT | CLEAR | CLS
    | INDENT | DEDENT | NEWLINE | EOF_TOKEN
    | IDENTIFIER | STRING | CHAR | TOKEN_NUM | TOKEN_FLOAT
    | LBRACE | RBRACE | LPAREN | RPAREN | LBRACKET | RBRACKET
    | ARROW | DOT | COMMA | COLON
    | PLUS | MINUS | STAR | SLASH | PLUS_PLUS
    | ASSIGN | PLUS_EQ | MINUS_EQ | STAR_EQ | SLASH_EQ
    | LT | GT | EQ_EQ | BANG_EQ
    | OR | AND | BIT_AND | BIT_OR | XOR | LSHIFT | RSHIFT

  /** A token: its kind, its text (identifier name, string contents, "("
      and ")" for parentheses, "" for the layout tokens), and the line and
      column the lexer was at when it made it. */
  datatype Token = Token(kind: Kind, text: string, line: int, col: int)

  /** The number of tokens of kind `k`, counted from the back so that
      appending a token adds at most one. */
  function CountKind(k: Kind, ts: seq<Token>): (n: nat)
    ensures n <= |ts|
  {
    if |ts| == 0 then 0
    else CountKind(k, ts[..|ts| - 1]) + (if ts[|ts| - 1].kind == k then 1 else 0)
  }

  lemma CountKindAppend(k: Kind, ts: seq<Token>, t: Token)
    ensures CountKind(k, ts + [t]) == CountKind(k, ts) + (if t.kind == k then 1 else 0)
  {
    assert (ts + [t])[..|ts|] == ts;
  }

  lemma {:induction false} CountKindConcat(k: Kind, a: seq<Token>, b: seq<Token>)
    ensures CountKind(k, a + b) == CountKind(k, a) + CountKind(k, b)
    decreases |b|
  {
    if |b| == 0 {
      assert a + b == a;
    } else {
      assert (a + b)[..|a + b| - 1] == a + b[..|b| - 1];
      CountKindConcat(k, a, b[..|b| - 1]);
    }
  }

  lemma {:induction false} CountKindNone(k: Kind, ts: seq<Token>)
    requires forall i :: 0 <= i < |ts| ==> ts[i].kind != k
    ensures CountKind(k, ts) == 0
    decreases |ts|
  {
    if |ts| > 0 {
      CountKindNone(k, ts[..|ts| - 1]);
    }
  }
}
