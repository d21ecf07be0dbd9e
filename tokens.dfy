/** The token record the lexer produces and the parser consumes. */
module Tokens {

  /** The token types; COMMENT and SKIP matches never become tokens. */
  datatype TokenKind =
    | NEWLINE | KEYWORD | IDENT | NUMBER | STRING | OP
    | LPAREN | RPAREN | COMMA | COLON | EOF | UNKNOWN

  /** `Token(type, value, line, col)`: line and column are 1-based. */
  datatype Token = Token(kind: TokenKind, value: string, line: int, col: int)
}
