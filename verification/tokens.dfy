/** The token model shared by the lexer and the parser. */
module Tokens {

  /** The `TokenType` categories of the Java lexer.  `Unknown` is declared but never produced. */
  datatype TokenType =
    | Keyword
    | Identifier
    | StringLit
    | Number
    | Symbol
    | Eof
    | Unknown
    | Boolean
    | Newline

  /** A token: its category, its text and the 1-based script line it came from. */
  datatype Token = Token(kind: TokenType, text: string, line: int)
}
