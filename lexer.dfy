/**
 * The `Lexer` struct of src/lexer.rs: a byte cursor whose methods update
 * `position`, `read_position` and `ch` in place. Every method is proved to
 * leave the cursor where the functions of `LexerSpec` say.
 */
module Lexing {
  import opened Tokens
  import opened LexerSpec

  class Lexer {
    const input: string
    var position: nat
    var readPosition: nat
    var ch: char

    /** The cursor invariant: `ch` is the byte at `position`, one behind `read_position`. */
    ghost predicate Valid()
      reads this
    {
      readPosition == position + 1 && ch == ByteAt(input, position) && NumbersFit(input)
    }

    constructor (input: string)
      requires NumbersFit(input)
      ensures Valid() && this.input == input && position == 0
    {
      this.input := input;
      position := 0;
      readPosition := 0;
      ch := NUL;
      new;
      ReadChar();
    }

    /** Moves the cursor one byte on; reads NUL past the end. */
    method ReadChar()
      modifies this
      ensures ch == ByteAt(input, old(readPosition))
      ensures position == old(readPosition) && readPosition == old(readPosition) + 1
    {
      if readPosition >= |input| {
        ch := NUL;
      } else {
        ch := input[readPosition];
      }
      position := readPosition;
      readPosition := readPosition + 1;
    }

    /** The byte after the current one, without moving. */
    function PeekChar(): (c: char)
      reads this
      ensures Valid() ==> c == ByteAt(input, position + 1)
    {
      if readPosition >= |input| then NUL else input[readPosition]
    }

    /** Produces the next token and moves past it. */
    method NextToken() returns (tok: Token)
      requires Valid()
      modifies this
      ensures Valid() && Step(tok, position) == LexStep(input, old(position))
    {
      SkipWhitespace();
      match ch {
        case '=' =>
          if PeekChar() == '=' {
            ReadChar();
            tok := Equal;
          } else {
            tok := Assign;
          }
        case '+' => tok := Plus;
        case '-' => tok := Minus;
        case '!' =>
          if PeekChar() == '=' {
            ReadChar();
            tok := NotEqual;
          } else {
            tok := Bang;
          }
        case '*' => tok := Asterisk;
        case '/' => tok := Slash;
        case '<' => tok := Lt;
        case '>' => tok := Gt;
        case ',' => tok := Comma;
        case ';' => tok := Semicolon;
        case '(' => tok := Lparen;
        case ')' => tok := Rparen;
        case '{' => tok := Lbrace;
        case '}' => tok := Rbrace;
        case '\0' => tok := EOF;
        case _ =>
          if IsLetter(ch) {
            tok := ConsumeIdentifier();
            return;
          } else if IsDigit(ch) {
            tok := ConsumeNumber();
            return;
          } else {
            tok := Illegal;
          }
      }
      ReadChar();
    }

    /** Scans the maximal identifier run at the cursor and returns its text. */
    method ReadIdentifier() returns (text: string)
      requires Valid() && IsLetter(ch)
      modifies this
      ensures Valid() && position == IdentifierEnd(input, old(position))
      ensures text == input[old(position)..position]
    {
      var start := position;
      while IsLetter(ch)
        invariant Valid() && start <= position <= IdentifierEnd(input, start)
        invariant IdentifierEnd(input, position) == IdentifierEnd(input, start)
        decreases Remaining(input, position)
      {
        ReadChar();
      }
      text := input[start..position];
    }

    /** Scans the maximal digit run at the cursor and returns its text. */
    method ReadNumber() returns (digits: string)
      requires Valid() && IsDigit(ch)
      modifies this
      ensures Valid() && position == NumberEnd(input, old(position))
      ensures digits == input[old(position)..position]
    {
      var start := position;
      while IsDigit(ch)
        invariant Valid() && start <= position <= NumberEnd(input, start)
        invariant NumberEnd(input, position) == NumberEnd(input, start)
        decreases Remaining(input, position)
      {
        ReadChar();
      }
      digits := input[start..position];
    }

    /** An identifier run, looked up in the keyword table. */
    method ConsumeIdentifier() returns (tok: Token)
      requires Valid() && IsLetter(ch)
      modifies this
      ensures Valid() && position == IdentifierEnd(input, old(position))
      ensures tok == LookupIdent(input[old(position)..position])
    {
      var literal := ReadIdentifier();
      tok := LookupIdent(literal);
    }

    /** A digit run, converted to its `i64` value. */
    method ConsumeNumber() returns (tok: Token)
      requires Valid() && IsDigit(ch)
      modifies this
      ensures Valid() && position == NumberEnd(input, old(position))
      ensures tok == Int(DigitRunValue(input, old(position)) as i64)
    {
      var start := position;
      var digits := ReadNumber();
      assert forall k :: 0 <= k < |digits| ==> digits[k] == ByteAt(input, start + k);
      assert DigitRunValue(input, start) <= I64_MAX;
      tok := Int(DecimalValue(digits) as i64);
    }

    /** Skips spaces, tabs, newlines and carriage returns. */
    method SkipWhitespace()
      requires Valid()
      modifies this
      ensures Valid() && position == WhitespaceEnd(input, old(position))
    {
      ghost var start := position;
      while ch == ' ' || ch == '\t' || ch == '\n' || ch == '\r'
        invariant Valid() && start <= position <= WhitespaceEnd(input, start)
        invariant WhitespaceEnd(input, position) == WhitespaceEnd(input, start)
        decreases Remaining(input, position)
      {
        ReadChar();
      }
    }
  }
}
