/**
 * Lexical vocabulary (src/token.rs), with the variant set that the lexer and
 * the parser actually use: src/token.rs declares fewer of them, names the
 * `fn` keyword `Function` and gives `Illegal` a payload that the lexer never
 * supplies.
 */
module Tokens {

  /** Rust's `i64`. */
  newtype i64 = x: int | -0x8000_0000_0000_0000 <= x < 0x8000_0000_0000_0000

  const I64_MAX: int := 0x7FFF_FFFF_FFFF_FFFF

  /** One lexical unit. Equality is structural, payload included. */
  datatype Token =
    | Illegal
    | EOF
    // identifier + literal
    | Ident(text: string)
    | Int(value: i64)
    // operators
    | Assign | Plus | Minus | Bang | Asterisk | Slash | Lt | Gt | Equal | NotEqual
    // delimiters
    | Comma | Semicolon | Lparen | Rparen | Lbrace | Rbrace
    // keywords
    | Fn | Let | True | False | If | Else | Return
}
