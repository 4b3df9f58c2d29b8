/**
 * The lexer of src/lexer.rs as pure functions of the input and the cursor.
 *
 * The input is a sequence of bytes, each byte written as a `char`. The
 * lexer's state is its `position`; `read_position` is always `position + 1`
 * and `ch` is the byte at `position`, or NUL past the end.
 */
module LexerSpec {
  import opened Tokens

  const NUL: char := 0 as char

  /** The byte at `i`, or NUL once `i` is past the end (src/lexer.rs:23-27). */
  function ByteAt(input: string, i: nat): char {
    if i < |input| then input[i] else NUL
  }

  /** Bytes not yet consumed when the cursor is at `pos`. */
  function Remaining(input: string, pos: nat): nat {
    if pos < |input| then |input| - pos else 0
  }

  /** `is_letter`. Letters, digits and whitespace are disjoint classes, and none holds NUL. */
  predicate IsLetter(c: char)
    ensures IsLetter(c) ==> c != NUL && !IsDigit(c) && !IsWhitespace(c)
  {
    'a' <= c <= 'z' || 'A' <= c <= 'Z' || c == '_'
  }

  /** `is_digit`. */
  predicate IsDigit(c: char)
    ensures IsDigit(c) ==> c != NUL && !IsWhitespace(c)
  {
    '0' <= c <= '9'
  }

  predicate IsWhitespace(c: char) {
    c == ' ' || c == '\t' || c == '\n' || c == '\r'
  }

  /** Where the whitespace run starting at `pos` ends. */
  function WhitespaceEnd(input: string, pos: nat): (p: nat)
    ensures pos <= p
    ensures pos <= |input| ==> p <= |input|
    ensures pos > |input| ==> p == pos
    ensures forall k :: pos <= k < p ==> IsWhitespace(ByteAt(input, k))
    ensures !IsWhitespace(ByteAt(input, p))
    decreases Remaining(input, pos)
  {
    if IsWhitespace(ByteAt(input, pos)) then WhitespaceEnd(input, pos + 1) else pos
  }

  /** Where the run of identifier bytes starting at `pos` ends. */
  function IdentifierEnd(input: string, pos: nat): (e: nat)
    ensures pos <= e
    ensures pos <= |input| ==> e <= |input|
    ensures pos > |input| ==> e == pos
    ensures forall k :: pos <= k < e ==> IsLetter(ByteAt(input, k))
    ensures !IsLetter(ByteAt(input, e))
    decreases Remaining(input, pos)
  {
    if IsLetter(ByteAt(input, pos)) then IdentifierEnd(input, pos + 1) else pos
  }

  /** Where the run of digits starting at `pos` ends. */
  function NumberEnd(input: string, pos: nat): (e: nat)
    ensures pos <= e
    ensures pos <= |input| ==> e <= |input|
    ensures pos > |input| ==> e == pos
    ensures forall k :: pos <= k < e ==> IsDigit(ByteAt(input, k))
    ensures !IsDigit(ByteAt(input, e))
    decreases Remaining(input, pos)
  {
    if IsDigit(ByteAt(input, pos)) then NumberEnd(input, pos + 1) else pos
  }

  function DigitValue(c: char): nat
    requires IsDigit(c)
  {
    c as int - '0' as int
  }

  /** 10 to the power `n`. */
  function Pow10(n: nat): (r: nat)
    ensures r >= 1
  {
    if n == 0 then 1 else 10 * Pow10(n - 1)
  }

  /** The decimal value of a digit string, as `str::parse` computes it; `n` digits stay below 10^n. */
  function DecimalValue(digits: string): (v: nat)
    requires forall k :: 0 <= k < |digits| ==> IsDigit(digits[k])
    ensures v < Pow10(|digits|)
  {
    if |digits| == 0 then 0
    else DecimalValue(digits[..|digits| - 1]) * 10 + DigitValue(digits[|digits| - 1])
  }

  /** The value of the digit run starting at `pos` (0 when there is none). */
  function DigitRunValue(input: string, pos: nat): nat
    requires pos <= |input|
  {
    var e := NumberEnd(input, pos);
    assert forall k :: 0 <= k < e - pos ==> input[pos..e][k] == ByteAt(input, pos + k);
    DecimalValue(input[pos..e])
  }

  /**
   * Every digit run of the input fits in an `i64`. The source parses a run
   * with `parse::<i64>().unwrap()`, which panics otherwise.
   */
  predicate NumbersFit(input: string) {
    forall i :: 0 <= i < |input| ==> DigitRunValue(input, i) <= I64_MAX
  }

  /** The keyword table of `consume_identifier`. */
  function LookupIdent(text: string): (t: Token)
    ensures t.Ident? ==> t.text == text
    ensures !t.Ident? ==> t.Fn? || t.Let? || t.True? || t.False? || t.If? || t.Else? || t.Return?
  {
    match text
    case "fn" => Fn
    case "let" => Let
    case "true" => True
    case "false" => False
    case "if" => If
    case "else" => Else
    case "return" => Return
    case _ => Ident(text)
  }

  /** The token found at a cursor and the cursor after it. */
  datatype Step = Step(tok: Token, next: nat)

  /**
   * One call of `next_token` from cursor `pos`: skip whitespace, classify
   * the byte found there. Identifiers and numbers leave the cursor on the
   * byte that ends their run; every other class steps over its bytes with a
   * trailing `read_char`.
   */
  function LexStep(input: string, pos: nat): (r: Step)
    requires NumbersFit(input)
    ensures r.next > pos
    ensures Remaining(input, pos) == 0 ==> r == Step(EOF, pos + 1)
    ensures Remaining(input, pos) > 0 ==> Remaining(input, r.next) < Remaining(input, pos)
  {
    var p := WhitespaceEnd(input, pos);
    match ByteAt(input, p)
    case '=' => if ByteAt(input, p + 1) == '=' then Step(Equal, p + 2) else Step(Assign, p + 1)
    case '+' => Step(Plus, p + 1)
    case '-' => Step(Minus, p + 1)
    case '!' => if ByteAt(input, p + 1) == '=' then Step(NotEqual, p + 2) else Step(Bang, p + 1)
    case '*' => Step(Asterisk, p + 1)
    case '/' => Step(Slash, p + 1)
    case '<' => Step(Lt, p + 1)
    case '>' => Step(Gt, p + 1)
    case ',' => Step(Comma, p + 1)
    case ';' => Step(Semicolon, p + 1)
    case '(' => Step(Lparen, p + 1)
    case ')' => Step(Rparen, p + 1)
    case '{' => Step(Lbrace, p + 1)
    case '}' => Step(Rbrace, p + 1)
    case '\0' => Step(EOF, p + 1)
    case c =>
      if IsLetter(c) then
        var e := IdentifierEnd(input, p);
        Step(LookupIdent(input[p..e]), e)
      else if IsDigit(c) then
        Step(Int(DigitRunValue(input, p) as i64), NumberEnd(input, p))
      else
        Step(Illegal, p + 1)
  }

  /** The first `n` tokens from cursor `pos`. */
  function TokensFrom(input: string, pos: nat, n: nat): (ts: seq<Token>)
    requires NumbersFit(input)
    ensures |ts| == n
    decreases n
  {
    if n == 0 then []
    else
      var st := LexStep(input, pos);
      [st.tok] + TokensFrom(input, st.next, n - 1)
  }
}
