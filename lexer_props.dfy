/** Properties of the lexer specification. */
module LexerProperties {
  import opened Tokens
  import opened Wrappers
  import opened LexerSpec

  /** Once the cursor is past the input, every call yields EOF: EOF is a fixed point. */
  lemma {:induction false} EofForever(input: string, pos: nat, n: nat)
    requires NumbersFit(input) && pos >= |input|
    ensures forall i :: 0 <= i < n ==> TokensFrom(input, pos, n)[i] == EOF
    decreases n
  {
    if n > 0 {
      EofForever(input, pos + 1, n - 1);
      assert TokensFrom(input, pos, n) == [EOF] + TokensFrom(input, pos + 1, n - 1);
    }
  }

  /** A NUL byte in the input, like the end of input, yields EOF and is stepped over. */
  lemma NulByteIsEof(input: string, pos: nat)
    requires NumbersFit(input)
    requires ByteAt(input, WhitespaceEnd(input, pos)) == NUL
    ensures LexStep(input, pos) == Step(EOF, WhitespaceEnd(input, pos) + 1)
  {
  }

  /** Every cursor inside a whitespace run sees the same end of that run. */
  lemma {:induction false} WhitespaceEndInside(input: string, pos: nat, k: nat)
    requires pos <= k <= WhitespaceEnd(input, pos)
    ensures WhitespaceEnd(input, k) == WhitespaceEnd(input, pos)
    decreases k - pos
  {
    if k > pos {
      assert IsWhitespace(ByteAt(input, pos));
      WhitespaceEndInside(input, pos + 1, k);
    }
  }

  /** Whitespace before a token does not change it: lexing from anywhere inside the run gives the same step. */
  lemma WhitespaceSkipped(input: string, pos: nat, k: nat)
    requires NumbersFit(input)
    requires pos <= k <= WhitespaceEnd(input, pos)
    ensures LexStep(input, k) == LexStep(input, pos)
  {
    WhitespaceEndInside(input, pos, k);
  }

  /** `=` and `!` are joined with a following `=` into two-byte operators. */
  lemma TwoByteOperators(input: string, pos: nat)
    requires NumbersFit(input)
    ensures var p := WhitespaceEnd(input, pos);
      ByteAt(input, p) == '=' ==>
        LexStep(input, pos) == if ByteAt(input, p + 1) == '=' then Step(Equal, p + 2) else Step(Assign, p + 1)
    ensures var p := WhitespaceEnd(input, pos);
      ByteAt(input, p) == '!' ==>
        LexStep(input, pos) == if ByteAt(input, p + 1) == '=' then Step(NotEqual, p + 2) else Step(Bang, p + 1)
  {
  }

  /** The keyword table as data. */
  const Keywords: map<string, Token> :=
    map["fn" := Fn, "let" := Let, "true" := True, "false" := False,
        "if" := If, "else" := Else, "return" := Return]

  /** Exactly the seven keyword texts map to keyword tags; every other text is an identifier carrying itself. */
  lemma LookupIdentMatchesTable(text: string)
    ensures LookupIdent(text) == if text in Keywords then Keywords[text] else Ident(text)
    ensures LookupIdent(text).Ident? <==> text !in Keywords
  {
  }

  /** Different texts never give the same token. */
  lemma LookupIdentInjective(a: string, b: string)
    requires LookupIdent(a) == LookupIdent(b)
    ensures a == b
  {
    LookupIdentMatchesTable(a);
    LookupIdentMatchesTable(b);
  }

  /** An identifier is the maximal run of letters and underscores, looked up in the keyword table. */
  lemma IdentifierToken(input: string, pos: nat)
    requires NumbersFit(input)
    requires IsLetter(ByteAt(input, WhitespaceEnd(input, pos)))
    ensures var p := WhitespaceEnd(input, pos);
      var r := LexStep(input, pos);
      p < r.next <= |input|
      && (forall k :: p <= k < r.next ==> IsLetter(input[k]))
      && !IsLetter(ByteAt(input, r.next))
      && r.tok == LookupIdent(input[p..r.next])
  {
    var p := WhitespaceEnd(input, pos);
    assert p < |input|;
    assert forall k :: p <= k < IdentifierEnd(input, p) ==> input[k] == ByteAt(input, k);
    assert LexStep(input, pos) == Step(LookupIdent(input[p..IdentifierEnd(input, p)]), IdentifierEnd(input, p));
  }

  /** A number is the maximal run of digits and carries its decimal value. */
  lemma NumberToken(input: string, pos: nat)
    requires NumbersFit(input)
    requires IsDigit(ByteAt(input, WhitespaceEnd(input, pos)))
    ensures var p := WhitespaceEnd(input, pos);
      var r := LexStep(input, pos);
      p < r.next <= |input|
      && (forall k :: p <= k < r.next ==> IsDigit(input[k]))
      && !IsDigit(ByteAt(input, r.next))
      && r.tok.Int? && r.tok.value as int == DecimalValue(input[p..r.next])
  {
    var p := WhitespaceEnd(input, pos);
    var e := NumberEnd(input, p);
    assert forall k :: 0 <= k < e - p ==> input[p..e][k] == ByteAt(input, p + k);
    assert forall k :: p <= k < e ==> input[k] == ByteAt(input, k);
  }

  /** The bytes the lexer recognises without scanning a run. */
  predicate IsOperatorByte(c: char) {
    c == '=' || c == '+' || c == '-' || c == '!' || c == '*' || c == '/' || c == '<' || c == '>'
    || c == ',' || c == ';' || c == '(' || c == ')' || c == '{' || c == '}'
  }

  /** Any other byte that starts neither an identifier nor a number is Illegal and consumes one byte. */
  lemma IllegalByte(input: string, pos: nat)
    requires NumbersFit(input)
    requires var c := ByteAt(input, WhitespaceEnd(input, pos));
      c != NUL && !IsOperatorByte(c) && !IsLetter(c) && !IsDigit(c)
    ensures LexStep(input, pos) == Step(Illegal, WhitespaceEnd(input, pos) + 1)
  {
  }

  /** The tags produced from one byte alone, with the byte that produces each. */
  function PunctuationByte(t: Token): Option<char> {
    match t
    case Plus => Some('+')
    case Minus => Some('-')
    case Asterisk => Some('*')
    case Slash => Some('/')
    case Lt => Some('<')
    case Gt => Some('>')
    case Comma => Some(',')
    case Semicolon => Some(';')
    case Lparen => Some('(')
    case Rparen => Some(')')
    case Lbrace => Some('{')
    case Rbrace => Some('}')
    case _ => None
  }

  /**
   * Each one-byte tag is produced by exactly one byte: the lexer yields it
   * if and only if that byte is the first one after the whitespace, and it
   * consumes just that byte.
   */
  lemma PunctuationFromOneByte(input: string, pos: nat, t: Token)
    requires NumbersFit(input) && PunctuationByte(t).Some?
    ensures var p := WhitespaceEnd(input, pos);
      LexStep(input, pos).tok == t <==> ByteAt(input, p) == PunctuationByte(t).value
    ensures var p := WhitespaceEnd(input, pos);
      LexStep(input, pos).tok == t ==> LexStep(input, pos).next == p + 1
  {
    var p := WhitespaceEnd(input, pos);
    var c := ByteAt(input, p);
    if IsLetter(c) {
      LookupIdentMatchesTable(input[p..IdentifierEnd(input, p)]);
    } else if !IsOperatorByte(c) {
      assert LexStep(input, pos).tok !in {Token.Plus, Token.Minus, Asterisk, Slash, Lt, Gt, Comma, Semicolon, Lparen, Rparen, Lbrace, Rbrace};
    }
  }

  /** Assign is produced by `=` alone, when no second `=` follows. */
  lemma AssignFromOneByte(input: string, pos: nat)
    requires NumbersFit(input)
    ensures var p := WhitespaceEnd(input, pos);
      LexStep(input, pos).tok == Assign <==> ByteAt(input, p) == '=' && ByteAt(input, p + 1) != '='
  {
    var p := WhitespaceEnd(input, pos);
    var c := ByteAt(input, p);
    if IsLetter(c) {
      LookupIdentMatchesTable(input[p..IdentifierEnd(input, p)]);
    }
  }

  /** Inputs of at most 18 bytes cannot hold a number beyond `i64`. */
  lemma ShortInputFits(input: string)
    requires |input| <= 18
    ensures NumbersFit(input)
  {
    forall i | 0 <= i < |input|
      ensures DigitRunValue(input, i) <= I64_MAX
    {
      var e := NumberEnd(input, i);
      var run := input[i..e];
      assert forall k :: 0 <= k < |run| ==> run[k] == ByteAt(input, i + k);
      Pow10Monotone(|run|, 18);
      assert Pow10(6) == 1_000_000;
      assert Pow10(12) == 1_000_000_000_000;
      assert Pow10(18) == 1_000_000_000_000_000_000;
    }
  }

  lemma {:induction false} Pow10Monotone(m: nat, n: nat)
    requires m <= n
    ensures Pow10(m) <= Pow10(n)
    decreases n
  {
    if m < n {
      Pow10Monotone(m, n - 1);
    }
  }

  /** The decimal rendering of a natural number, most significant digit first. */
  function DecimalDigits(n: nat): (s: string)
    ensures |s| >= 1
    ensures forall k :: 0 <= k < |s| ==> IsDigit(s[k])
  {
    var last := ('0' as int + n % 10) as char;
    if n < 10 then [last] else DecimalDigits(n / 10) + [last]
  }

  /** Reading back a rendered number gives the number: the digit conversion is its inverse. */
  lemma {:induction false} DecimalRoundTrip(n: nat)
    ensures DecimalValue(DecimalDigits(n)) == n
  {
    var s := DecimalDigits(n);
    if n >= 10 {
      DecimalRoundTrip(n / 10);
      assert s[..|s| - 1] == DecimalDigits(n / 10);
    }
  }
}
