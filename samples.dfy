/**
 * Single statements and fragments of the unit-test inputs of src/lexer.rs and
 * src/parser.rs, an input of its own holding the eight one-byte tags, and a
 * few inputs with a malformed or unterminated statement or an operator chain,
 * worked through the model. Each input first gets the
 * lexer step at every cursor; the parse is then derived for any input that
 * lexes that way.
 */
module Samples {
  import opened Wrappers
  import opened Tokens
  import opened LexerSpec
  import opened Ast
  import opened ParserSpec
  import LexerProperties
  import opened ParserProperties

  /** A program of one statement followed by the end of input. */
  lemma OneStatement(input: string, st: Stmt, s1: PState)
    requires NumbersFit(input)
    requires Init(input, 0).cur != EOF
    requires ParseStmt(input, Init(input, 0)) == Done(Some(st), s1)
    requires Advance(input, s1).cur == EOF
    ensures Parse(input) == Done([st], Advance(input, s1))
  {
    LastStatement(input, Init(input, 0), st, s1);
  }

  /** A statement after which the input ends. */
  lemma LastStatement(input: string, s: PState, st: Stmt, s1: PState)
    requires NumbersFit(input) && s.cur != EOF
    requires ParseStmt(input, s) == Done(Some(st), s1)
    requires Advance(input, s1).cur == EOF
    ensures ParseProgramFrom(input, s) == Done([st], Advance(input, s1))
  {
    assert ParseProgramFrom(input, Advance(input, s1)) == Done([], Advance(input, s1));
    assert OptionToSeq(Some(st)) + [] == [st];
  }

  /** One more statement in front of the rest of a program. */
  lemma ProgramStep(input: string, s: PState, st: Option<Stmt>, s1: PState, rest: Program, s2: PState)
    requires NumbersFit(input) && s.cur != EOF
    requires ParseStmt(input, s) == Done(st, s1)
    requires ParseProgramFrom(input, Advance(input, s1)) == Done(rest, s2)
    ensures ParseProgramFrom(input, s) == Done(OptionToSeq(st) + rest, s2)
  {
  }

  function Five(): Expr { LiteralExpr(IntLit(5)) }

  // ---- lexer ----

  /** An input of its own, not from the unit tests: the eight one-byte tags in a row. */
  const PunctuationInput := "=+(){},;"

  lemma PunctuationSteps()
    ensures NumbersFit(PunctuationInput)
    ensures LexStep(PunctuationInput, 0) == Step(Assign, 1)
    ensures LexStep(PunctuationInput, 1) == Step(Token.Plus, 2)
    ensures LexStep(PunctuationInput, 2) == Step(Lparen, 3)
    ensures LexStep(PunctuationInput, 3) == Step(Rparen, 4)
    ensures LexStep(PunctuationInput, 4) == Step(Lbrace, 5)
    ensures LexStep(PunctuationInput, 5) == Step(Rbrace, 6)
    ensures LexStep(PunctuationInput, 6) == Step(Comma, 7)
    ensures LexStep(PunctuationInput, 7) == Step(Semicolon, 8)
  {
    LexerProperties.ShortInputFits(PunctuationInput);
  }

  /**
   * The one-byte punctuation tags, each from its own byte; the `;` leaves the
   * cursor at the end of the input, from where every call yields EOF.
   */
  lemma PunctuationTokens()
    ensures NumbersFit(PunctuationInput)
    ensures TokensFrom(PunctuationInput, 0, 10)
         == [Assign, Token.Plus, Lparen, Rparen, Lbrace, Rbrace, Comma, Semicolon, EOF, EOF]
    ensures LexStep(PunctuationInput, 7).next == |PunctuationInput|
    ensures forall n: nat, i :: 0 <= i < n ==> TokensFrom(PunctuationInput, |PunctuationInput|, n)[i] == EOF
  {
    PunctuationSteps();
    PunctuationTail();
    forall n: nat ensures forall i :: 0 <= i < n ==> TokensFrom(PunctuationInput, |PunctuationInput|, n)[i] == EOF {
      LexerProperties.EofForever(PunctuationInput, |PunctuationInput|, n);
    }
    var input := PunctuationInput;
    assert TokensFrom(input, 3, 7) == [Rparen, Lbrace, Rbrace, Comma, Semicolon, EOF, EOF];
    assert TokensFrom(input, 2, 8) == [Lparen, Rparen, Lbrace, Rbrace, Comma, Semicolon, EOF, EOF];
    assert TokensFrom(input, 1, 9) == [Token.Plus, Lparen, Rparen, Lbrace, Rbrace, Comma, Semicolon, EOF, EOF];
  }

  lemma PunctuationTail()
    ensures NumbersFit(PunctuationInput)
    ensures TokensFrom(PunctuationInput, 4, 6) == [Lbrace, Rbrace, Comma, Semicolon, EOF, EOF]
  {
    PunctuationSteps();
    var input := PunctuationInput;
    assert TokensFrom(input, 8, 2) == [EOF, EOF];
    assert TokensFrom(input, 7, 3) == [Semicolon, EOF, EOF];
    assert TokensFrom(input, 6, 4) == [Comma, Semicolon, EOF, EOF];
    assert TokensFrom(input, 5, 5) == [Rbrace, Comma, Semicolon, EOF, EOF];
  }

  const EqualInput := "10 == 10;"

  /** `==` is one token, and `10` one integer token, wherever they stand. */
  lemma EqualTokens()
    ensures NumbersFit(EqualInput)
    ensures LexStep(EqualInput, 0) == Step(Int(10), 2)
    ensures LexStep(EqualInput, 2) == Step(Token.Equal, 5)
    ensures LexStep(EqualInput, 5) == Step(Int(10), 8)
    ensures LexStep(EqualInput, 8) == Step(Semicolon, 9)
    ensures LexStep(EqualInput, 9) == Step(EOF, 10)
  {
    EqualTokensLeft();
    EqualTokensRight();
  }

  lemma EqualTokensLeft()
    ensures NumbersFit(EqualInput)
    ensures LexStep(EqualInput, 0) == Step(Int(10), 2)
    ensures LexStep(EqualInput, 2) == Step(Token.Equal, 5)
  {
    var input := EqualInput;
    LexerProperties.ShortInputFits(input);
    assert NumberEnd(input, 0) == 2 by { assert NumberEnd(input, 2) == 2; assert NumberEnd(input, 1) == 2; }
    assert WhitespaceEnd(input, 2) == 3 by { assert WhitespaceEnd(input, 3) == 3; }
    assert input[0..2] == "10";
    assert DecimalValue("10") == 10 by { assert "10"[..1] == "1"; assert "1"[..0] == ""; }
  }

  lemma EqualTokensRight()
    ensures NumbersFit(EqualInput)
    ensures LexStep(EqualInput, 5) == Step(Int(10), 8)
    ensures LexStep(EqualInput, 8) == Step(Semicolon, 9)
    ensures LexStep(EqualInput, 9) == Step(EOF, 10)
  {
    var input := EqualInput;
    LexerProperties.ShortInputFits(input);
    assert WhitespaceEnd(input, 5) == 6 by { assert WhitespaceEnd(input, 6) == 6; }
    assert NumberEnd(input, 6) == 8 by { assert NumberEnd(input, 8) == 8; assert NumberEnd(input, 7) == 8; }
    assert input[6..8] == "10";
    assert DecimalValue("10") == 10 by { assert "10"[..1] == "1"; assert "1"[..0] == ""; }
  }

  // ---- parser ----

  const IntInput := "5;"

  lemma IntSteps()
    ensures NumbersFit(IntInput)
    ensures LexStep(IntInput, 0) == Step(Int(5), 1)
    ensures LexStep(IntInput, 1) == Step(Semicolon, 2)
  {
    var input := IntInput;
    LexerProperties.ShortInputFits(input);
    assert NumberEnd(input, 0) == 1 by { assert NumberEnd(input, 1) == 1; }
    assert input[0..1] == "5";
  }

  /** Any input lexing as `5;` is one expression statement, with no diagnostic. */
  lemma IntParse(input: string)
    requires NumbersFit(input) && |input| == 2
    requires LexStep(input, 0) == Step(Int(5), 1)
    requires LexStep(input, 1) == Step(Semicolon, 2)
    ensures Parse(input) == Done([ExprStmt(Five())], PState(EOF, EOF, 4, []))
  {
    var s0 := Init(input, 0);
    assert s0 == PState(Int(5), Semicolon, 2, []);
    AtomAlone(input, s0, Precedence.Lowest);
    ExpressionStatement(input, s0);
    OneStatement(input, ExprStmt(Five()), Advance(input, s0));
  }

  /** `5;`. */
  lemma IntExpression()
    ensures NumbersFit(IntInput)
    ensures Parse(IntInput) == Done([ExprStmt(Five())], PState(EOF, EOF, 4, []))
  {
    IntSteps();
    IntParse(IntInput);
  }

  const IdentInput := "foobar;"

  lemma IdentSteps()
    ensures NumbersFit(IdentInput)
    ensures LexStep(IdentInput, 0) == Step(Token.Ident("foobar"), 6)
    ensures LexStep(IdentInput, 6) == Step(Semicolon, 7)
  {
    var input := IdentInput;
    LexerProperties.ShortInputFits(input);
    assert IdentifierEnd(input, 0) == 6 by {
      assert IdentifierEnd(input, 6) == 6;
      assert IdentifierEnd(input, 5) == 6;
      assert IdentifierEnd(input, 4) == 6;
      assert IdentifierEnd(input, 3) == 6;
      assert IdentifierEnd(input, 2) == 6;
      assert IdentifierEnd(input, 1) == 6;
    }
    assert input[0..6] == "foobar";
  }

  lemma IdentParse(input: string)
    requires NumbersFit(input) && |input| == 7
    requires LexStep(input, 0) == Step(Token.Ident("foobar"), 6)
    requires LexStep(input, 6) == Step(Semicolon, 7)
    ensures Parse(input) == Done([ExprStmt(IdentExpr(Ident.Ident("foobar")))], PState(EOF, EOF, 9, []))
  {
    var s0 := Init(input, 0);
    assert s0 == PState(Token.Ident("foobar"), Semicolon, 7, []);
    AtomAlone(input, s0, Precedence.Lowest);
    ExpressionStatement(input, s0);
    OneStatement(input, ExprStmt(IdentExpr(Ident.Ident("foobar"))), Advance(input, s0));
  }

  /** `foobar;`. */
  lemma IdentExpression()
    ensures NumbersFit(IdentInput)
    ensures Parse(IdentInput) == Done([ExprStmt(IdentExpr(Ident.Ident("foobar")))], PState(EOF, EOF, 9, []))
  {
    IdentSteps();
    IdentParse(IdentInput);
  }

  const MinusInput := "-15;"

  lemma MinusSteps()
    ensures NumbersFit(MinusInput)
    ensures LexStep(MinusInput, 0) == Step(Token.Minus, 1)
    ensures LexStep(MinusInput, 1) == Step(Int(15), 3)
    ensures LexStep(MinusInput, 3) == Step(Semicolon, 4)
  {
    var input := MinusInput;
    LexerProperties.ShortInputFits(input);
    assert NumberEnd(input, 1) == 3 by { assert NumberEnd(input, 3) == 3; assert NumberEnd(input, 2) == 3; }
    assert input[1..3] == "15";
    assert DecimalValue("15") == 15 by { assert "15"[..1] == "1"; assert "1"[..0] == ""; }
  }

  lemma MinusParse(input: string)
    requires NumbersFit(input) && |input| == 4
    requires LexStep(input, 0) == Step(Token.Minus, 1)
    requires LexStep(input, 1) == Step(Int(15), 3)
    requires LexStep(input, 3) == Step(Semicolon, 4)
    ensures Parse(input) == Done([ExprStmt(PrefixExpr(Prefix.Minus, LiteralExpr(IntLit(15))))], PState(EOF, EOF, 6, []))
  {
    var s0 := PState(Token.Minus, Int(15), 3, []);
    var s1 := PState(Int(15), Semicolon, 4, []);
    var s2 := PState(Semicolon, EOF, 5, []);
    assert Init(input, 0) == s0 && Advance(input, s0) == s1 && Advance(input, s1) == s2;
    assert Advance(input, s2).cur == EOF;
    MinusStatement(input, s0, s1);
    OneStatement(input, ExprStmt(PrefixExpr(Prefix.Minus, LiteralExpr(IntLit(15)))), s2);
  }

  lemma MinusStatement(input: string, s0: PState, s1: PState)
    requires NumbersFit(input) && s0.cur == Token.Minus
    requires s1 == Advance(input, s0) && s1.cur == Int(15) && s1.peek == Semicolon
    ensures ParseStmt(input, s0) == Done(Some(ExprStmt(PrefixExpr(Prefix.Minus, LiteralExpr(IntLit(15))))), Advance(input, s1))
  {
    AtomAlone(input, s1, Precedence.Lowest);
    PrefixSwallowsChain(input, s0, Precedence.Lowest);
    ExpressionStatement(input, s0);
  }

  /** `-15;` applies `-` to `15`: the lexer has no negative literals. */
  lemma MinusPrefix()
    ensures NumbersFit(MinusInput)
    ensures Parse(MinusInput) == Done([ExprStmt(PrefixExpr(Prefix.Minus, LiteralExpr(IntLit(15))))], PState(EOF, EOF, 6, []))
  {
    MinusSteps();
    MinusParse(MinusInput);
  }

  const NotEqualInput := "5 != 5;"

  lemma NotEqualSteps()
    ensures NumbersFit(NotEqualInput)
    ensures LexStep(NotEqualInput, 0) == Step(Int(5), 1)
    ensures LexStep(NotEqualInput, 1) == Step(Token.NotEqual, 4)
    ensures LexStep(NotEqualInput, 4) == Step(Int(5), 6)
    ensures LexStep(NotEqualInput, 6) == Step(Semicolon, 7)
  {
    var input := NotEqualInput;
    LexerProperties.ShortInputFits(input);
    assert WhitespaceEnd(input, 1) == 2 by { assert WhitespaceEnd(input, 2) == 2; }
    assert WhitespaceEnd(input, 4) == 5 by { assert WhitespaceEnd(input, 5) == 5; }
    assert NumberEnd(input, 0) == 1 by { assert NumberEnd(input, 1) == 1; }
    assert NumberEnd(input, 5) == 6 by { assert NumberEnd(input, 6) == 6; }
    assert input[0..1] == "5" && input[5..6] == "5";
  }

  lemma NotEqualParse(input: string)
    requires NumbersFit(input) && |input| == 7
    requires LexStep(input, 0) == Step(Int(5), 1)
    requires LexStep(input, 1) == Step(Token.NotEqual, 4)
    requires LexStep(input, 4) == Step(Int(5), 6)
    requires LexStep(input, 6) == Step(Semicolon, 7)
    ensures Parse(input) == Done([ExprStmt(InfixExpr(Infix.NotEqual, Five(), Five()))], PState(EOF, EOF, 9, []))
  {
    var s0 := PState(Int(5), Token.NotEqual, 4, []);
    var s2 := PState(Int(5), Semicolon, 7, []);
    var s3 := PState(Semicolon, EOF, 8, []);
    assert Init(input, 0) == s0 && AdvanceN(input, s0, 2) == s2 && Advance(input, s2) == s3;
    assert Advance(input, s3).cur == EOF;
    NotEqualStatement(input, s0, s2);
    OneStatement(input, ExprStmt(InfixExpr(Infix.NotEqual, Five(), Five())), s3);
  }

  lemma NotEqualStatement(input: string, s0: PState, s2: PState)
    requires NumbersFit(input)
    requires s0.cur == Int(5) && s0.peek == Token.NotEqual
    requires s2 == AdvanceN(input, s0, 2) && s2.cur == Int(5) && s2.peek == Semicolon
    ensures ParseStmt(input, s0) == Done(Some(ExprStmt(InfixExpr(Infix.NotEqual, Five(), Five()))), Advance(input, s2))
  {
    AtomAlone(input, s2, Precedence.Lowest);
    InfixNestsRight(input, s0, Precedence.Lowest);
    ExpressionStatement(input, s0);
  }

  /** `5 != 5;`: the two-byte operator is one token. */
  lemma NotEqualInfix()
    ensures NumbersFit(NotEqualInput)
    ensures Parse(NotEqualInput) == Done([ExprStmt(InfixExpr(Infix.NotEqual, Five(), Five()))], PState(EOF, EOF, 9, []))
  {
    NotEqualSteps();
    NotEqualParse(NotEqualInput);
  }

  const LetInput := "let x = 5;"

  lemma LetSteps()
    ensures NumbersFit(LetInput)
    ensures LexStep(LetInput, 0) == Step(Let, 3)
    ensures LexStep(LetInput, 3) == Step(Token.Ident("x"), 5)
    ensures LexStep(LetInput, 5) == Step(Assign, 7)
    ensures LexStep(LetInput, 7) == Step(Int(5), 9)
    ensures LexStep(LetInput, 9) == Step(Semicolon, 10)
  {
    LetStepsLeft();
    LetStepsRight();
  }

  lemma LetStepsLeft()
    ensures NumbersFit(LetInput)
    ensures LexStep(LetInput, 0) == Step(Let, 3)
    ensures LexStep(LetInput, 3) == Step(Token.Ident("x"), 5)
  {
    var input := LetInput;
    LexerProperties.ShortInputFits(input);
    assert IdentifierEnd(input, 0) == 3 by {
      assert IdentifierEnd(input, 3) == 3;
      assert IdentifierEnd(input, 2) == 3;
      assert IdentifierEnd(input, 1) == 3;
    }
    assert input[0..3] == "let";
    assert WhitespaceEnd(input, 3) == 4 by { assert WhitespaceEnd(input, 4) == 4; }
    assert IdentifierEnd(input, 4) == 5 by { assert IdentifierEnd(input, 5) == 5; }
    assert input[4..5] == "x";
  }

  lemma LetStepsRight()
    ensures NumbersFit(LetInput)
    ensures LexStep(LetInput, 5) == Step(Assign, 7)
    ensures LexStep(LetInput, 7) == Step(Int(5), 9)
    ensures LexStep(LetInput, 9) == Step(Semicolon, 10)
  {
    var input := LetInput;
    LexerProperties.ShortInputFits(input);
    assert WhitespaceEnd(input, 5) == 6 by { assert WhitespaceEnd(input, 6) == 6; }
    assert WhitespaceEnd(input, 7) == 8 by { assert WhitespaceEnd(input, 8) == 8; }
    assert NumberEnd(input, 8) == 9 by { assert NumberEnd(input, 9) == 9; }
    assert input[8..9] == "5";
  }

  lemma LetParse(input: string)
    requires NumbersFit(input) && |input| == 10
    requires LexStep(input, 0) == Step(Let, 3)
    requires LexStep(input, 3) == Step(Token.Ident("x"), 5)
    requires LexStep(input, 5) == Step(Assign, 7)
    requires LexStep(input, 7) == Step(Int(5), 9)
    requires LexStep(input, 9) == Step(Semicolon, 10)
    ensures Parse(input) == Done([LetStmt(Ident.Ident("x"), Five())], PState(EOF, EOF, 12, []))
  {
    var s0 := PState(Let, Token.Ident("x"), 5, []);
    var s1 := PState(Token.Ident("x"), Assign, 7, []);
    var s3 := PState(Int(5), Semicolon, 10, []);
    var s4 := PState(Semicolon, EOF, 11, []);
    assert Init(input, 0) == s0 && Advance(input, s0) == s1;
    assert AdvanceN(input, s0, 3) == s3 && Advance(input, s3) == s4;
    assert Advance(input, s4).cur == EOF;
    LetStatementFound(input, s0, s3);
    OneStatement(input, LetStmt(Ident.Ident("x"), Five()), s4);
  }

  lemma LetStatementFound(input: string, s0: PState, s3: PState)
    requires NumbersFit(input) && s0.cur == Let && s0.peek == Token.Ident("x")
    requires Advance(input, s0).peek == Assign
    requires s3 == AdvanceN(input, s0, 3) && s3.cur == Int(5) && s3.peek == Semicolon
    ensures ParseStmt(input, s0) == Done(Some(LetStmt(Ident.Ident("x"), Five())), Advance(input, s3))
  {
    AtomAlone(input, s3, Precedence.Lowest);
    assert SkipToSemicolon(input, s3) == Some(Advance(input, s3));
    LetStatement(input, s0);
  }

  /** The let test, one statement of it: `let x = 5;` binds `x` to `5`. */
  lemma LetBinding()
    ensures NumbersFit(LetInput)
    ensures Parse(LetInput) == Done([LetStmt(Ident.Ident("x"), Five())], PState(EOF, EOF, 12, []))
  {
    LetSteps();
    LetParse(LetInput);
  }

  const ReturnInput := "return 5;"

  lemma ReturnSteps()
    ensures NumbersFit(ReturnInput)
    ensures LexStep(ReturnInput, 0) == Step(Return, 6)
    ensures LexStep(ReturnInput, 6) == Step(Int(5), 8)
    ensures LexStep(ReturnInput, 8) == Step(Semicolon, 9)
  {
    var input := ReturnInput;
    LexerProperties.ShortInputFits(input);
    assert IdentifierEnd(input, 0) == 6 by {
      assert IdentifierEnd(input, 6) == 6;
      assert IdentifierEnd(input, 5) == 6;
      assert IdentifierEnd(input, 4) == 6;
      assert IdentifierEnd(input, 3) == 6;
      assert IdentifierEnd(input, 2) == 6;
      assert IdentifierEnd(input, 1) == 6;
    }
    assert input[0..6] == "return";
    assert WhitespaceEnd(input, 6) == 7 by { assert WhitespaceEnd(input, 7) == 7; }
    assert NumberEnd(input, 7) == 8 by { assert NumberEnd(input, 8) == 8; }
    assert input[7..8] == "5";
  }

  lemma ReturnParse(input: string)
    requires NumbersFit(input) && |input| == 9
    requires LexStep(input, 0) == Step(Return, 6)
    requires LexStep(input, 6) == Step(Int(5), 8)
    requires LexStep(input, 8) == Step(Semicolon, 9)
    ensures Parse(input) == Done([ReturnStmt(Five())], PState(EOF, EOF, 11, []))
  {
    var s0 := PState(Return, Int(5), 8, []);
    var s1 := PState(Int(5), Semicolon, 9, []);
    var s2 := PState(Semicolon, EOF, 10, []);
    assert Init(input, 0) == s0 && Advance(input, s0) == s1 && Advance(input, s1) == s2;
    assert Advance(input, s2).cur == EOF;
    ReturnStatementFound(input, s0, s1);
    OneStatement(input, ReturnStmt(Five()), s2);
  }

  lemma ReturnStatementFound(input: string, s0: PState, s1: PState)
    requires NumbersFit(input) && s0.cur == Return
    requires s1 == Advance(input, s0) && s1.cur == Int(5) && s1.peek == Semicolon
    ensures ParseStmt(input, s0) == Done(Some(ReturnStmt(Five())), Advance(input, s1))
  {
    AtomAlone(input, s1, Precedence.Lowest);
    assert SkipToSemicolon(input, s1) == Some(Advance(input, s1));
    ReturnStatement(input, s0);
  }

  /** The return test, one statement of it: `return 5;`. */
  lemma ReturnValue()
    ensures NumbersFit(ReturnInput)
    ensures Parse(ReturnInput) == Done([ReturnStmt(Five())], PState(EOF, EOF, 11, []))
  {
    ReturnSteps();
    ReturnParse(ReturnInput);
  }

  const LetNoNameInput := "let = 5;"

  lemma LetNoNameSteps()
    ensures NumbersFit(LetNoNameInput)
    ensures LexStep(LetNoNameInput, 0) == Step(Let, 3)
    ensures LexStep(LetNoNameInput, 3) == Step(Assign, 5)
    ensures LexStep(LetNoNameInput, 5) == Step(Int(5), 7)
    ensures LexStep(LetNoNameInput, 7) == Step(Semicolon, 8)
  {
    var input := LetNoNameInput;
    LexerProperties.ShortInputFits(input);
    assert IdentifierEnd(input, 0) == 3 by {
      assert IdentifierEnd(input, 3) == 3;
      assert IdentifierEnd(input, 2) == 3;
      assert IdentifierEnd(input, 1) == 3;
    }
    assert input[0..3] == "let";
    assert WhitespaceEnd(input, 3) == 4 by { assert WhitespaceEnd(input, 4) == 4; }
    assert WhitespaceEnd(input, 5) == 6 by { assert WhitespaceEnd(input, 6) == 6; }
    assert NumberEnd(input, 6) == 7 by { assert NumberEnd(input, 7) == 7; }
    assert input[6..7] == "5";
  }

  lemma LetNoNameParse(input: string)
    requires NumbersFit(input) && |input| == 8
    requires LexStep(input, 0) == Step(Let, 3)
    requires LexStep(input, 3) == Step(Assign, 5)
    requires LexStep(input, 5) == Step(Int(5), 7)
    requires LexStep(input, 7) == Step(Semicolon, 8)
    ensures Parse(input) == Done([ExprStmt(Five())], PState(EOF, EOF, 10, []))
  {
    var s0 := PState(Let, Assign, 5, []);
    var s1 := PState(Assign, Int(5), 7, []);
    var s2 := PState(Int(5), Semicolon, 8, []);
    var s3 := PState(Semicolon, EOF, 9, []);
    var s4 := PState(EOF, EOF, 10, []);
    assert Init(input, 0) == s0 && Advance(input, s0) == s1 && Advance(input, s1) == s2
      && Advance(input, s2) == s3 && Advance(input, s3) == s4;
    LetNoNameStatements(input, s0, s1, s2, s3);
    DroppedThenExpression(input, s1, s1, s2, s3, s4);
    ProgramStep(input, s0, None, s0, [ExprStmt(Five())], s4);
    assert OptionToSeq(None) + [ExprStmt(Five())] == [ExprStmt(Five())];
  }

  lemma LetNoNameStatements(input: string, s0: PState, s1: PState, s2: PState, s3: PState)
    requires NumbersFit(input)
    requires s0 == PState(Let, Assign, 5, []) && s1 == Advance(input, s0) && s1 == PState(Assign, Int(5), 7, [])
    requires s2 == Advance(input, s1) && s2 == PState(Int(5), Semicolon, 8, []) && s3 == Advance(input, s2)
    ensures ParseStmt(input, s0) == Done(None, s0)
    ensures ParseStmt(input, s1) == Done(None, s1)
    ensures ParseStmt(input, s2) == Done(Some(ExprStmt(Five())), s3)
  {
    LetWithoutIdent(input, s0);
    NoHandlerNoStatement(input, s1);
    AtomAlone(input, s2, Precedence.Lowest);
    ExpressionStatement(input, s2);
  }

  /**
   * `let = 5;`: the `let` is dropped without a diagnostic, `=` starts no
   * statement, and `5;` becomes an expression statement.
   */
  lemma LetWithoutName()
    ensures NumbersFit(LetNoNameInput)
    ensures Parse(LetNoNameInput) == Done([ExprStmt(Five())], PState(EOF, EOF, 10, []))
  {
    LetNoNameSteps();
    LetNoNameParse(LetNoNameInput);
  }

  const LetNoAssignInput := "let x 5;"

  lemma LetNoAssignSteps()
    ensures NumbersFit(LetNoAssignInput)
    ensures LexStep(LetNoAssignInput, 0) == Step(Let, 3)
    ensures LexStep(LetNoAssignInput, 3) == Step(Token.Ident("x"), 5)
    ensures LexStep(LetNoAssignInput, 5) == Step(Int(5), 7)
    ensures LexStep(LetNoAssignInput, 7) == Step(Semicolon, 8)
  {
    LexerProperties.ShortInputFits(LetNoAssignInput);
    LetNoAssignWordSteps();
    LetNoAssignNumberSteps();
  }

  /** The keyword `let` and the identifier `x`. */
  lemma LetNoAssignWordSteps()
    ensures LexStep(LetNoAssignInput, 0) == Step(Let, 3)
    ensures LexStep(LetNoAssignInput, 3) == Step(Token.Ident("x"), 5)
  {
    var input := LetNoAssignInput;
    assert IdentifierEnd(input, 0) == 3 by {
      assert IdentifierEnd(input, 3) == 3;
      assert IdentifierEnd(input, 2) == 3;
      assert IdentifierEnd(input, 1) == 3;
    }
    assert input[0..3] == "let";
    assert WhitespaceEnd(input, 3) == 4 by { assert WhitespaceEnd(input, 4) == 4; }
    assert IdentifierEnd(input, 4) == 5 by { assert IdentifierEnd(input, 5) == 5; }
    assert input[4..5] == "x";
  }

  /** The number `5` and the closing `;`. */
  lemma LetNoAssignNumberSteps()
    ensures LexStep(LetNoAssignInput, 5) == Step(Int(5), 7)
    ensures LexStep(LetNoAssignInput, 7) == Step(Semicolon, 8)
  {
    var input := LetNoAssignInput;
    assert WhitespaceEnd(input, 5) == 6 by { assert WhitespaceEnd(input, 6) == 6; }
    assert NumberEnd(input, 6) == 7 by { assert NumberEnd(input, 7) == 7; }
    assert input[6..7] == "5";
  }

  lemma LetNoAssignParse(input: string)
    requires NumbersFit(input) && |input| == 8
    requires LexStep(input, 0) == Step(Let, 3)
    requires LexStep(input, 3) == Step(Token.Ident("x"), 5)
    requires LexStep(input, 5) == Step(Int(5), 7)
    requires LexStep(input, 7) == Step(Semicolon, 8)
    ensures Parse(input) == Done([ExprStmt(Five())], PState(EOF, EOF, 10, [PeekError(Assign, Int(5))]))
  {
    var errs := [PeekError(Assign, Int(5))];
    var s0 := PState(Let, Token.Ident("x"), 5, []);
    var s1 := PState(Token.Ident("x"), Int(5), 7, errs);
    var s2 := PState(Int(5), Semicolon, 8, errs);
    var s3 := PState(Semicolon, EOF, 9, errs);
    var s4 := PState(EOF, EOF, 10, errs);
    assert Init(input, 0) == s0 && Advance(input, s0) == s1.(errors := []);
    assert Advance(input, s1) == s2 && Advance(input, s2) == s3 && Advance(input, s3) == s4;
    LetNoAssignStatements(input, s0, s1, s2, s3);
    DroppedThenExpression(input, s0, s1, s2, s3, s4);
  }

  /** A statement that yields nothing, then an expression statement that ends the input. */
  lemma DroppedThenExpression(input: string, s0: PState, s1: PState, s2: PState, s3: PState, s4: PState)
    requires NumbersFit(input) && s0.cur != EOF && s2.cur != EOF
    requires ParseStmt(input, s0) == Done(None, s1) && Advance(input, s1) == s2
    requires ParseStmt(input, s2) == Done(Some(ExprStmt(Five())), s3)
    requires Advance(input, s3) == s4 && s4.cur == EOF
    ensures ParseProgramFrom(input, s0) == Done([ExprStmt(Five())], s4)
  {
    LastStatement(input, s2, ExprStmt(Five()), s3);
    ProgramStep(input, s0, None, s1, [ExprStmt(Five())], s4);
    assert OptionToSeq(None) + [ExprStmt(Five())] == [ExprStmt(Five())];
  }

  lemma LetNoAssignStatements(input: string, s0: PState, s1: PState, s2: PState, s3: PState)
    requires NumbersFit(input)
    requires s0 == PState(Let, Token.Ident("x"), 5, [])
    requires Advance(input, s0) == PState(Token.Ident("x"), Int(5), 7, [])
    requires s1 == PState(Token.Ident("x"), Int(5), 7, [PeekError(Assign, Int(5))])
    requires s2 == Advance(input, s1) && s2.cur == Int(5) && s2.peek == Semicolon && s3 == Advance(input, s2)
    ensures ParseStmt(input, s0) == Done(None, s1)
    ensures ParseStmt(input, s2) == Done(Some(ExprStmt(Five())), s3)
  {
    LetWithoutAssign(input, s0);
    AtomAlone(input, s2, Precedence.Lowest);
    ExpressionStatement(input, s2);
  }

  /**
   * `let x 5;`: one diagnostic (`=` expected, `5` found), the `let` is
   * dropped and parsing resumes at `5`, which becomes an expression statement.
   */
  lemma LetWithoutAssignment()
    ensures NumbersFit(LetNoAssignInput)
    ensures Parse(LetNoAssignInput) == Done([ExprStmt(Five())], PState(EOF, EOF, 10, [PeekError(Assign, Int(5))]))
  {
    LetNoAssignSteps();
    LetNoAssignParse(LetNoAssignInput);
  }

  const ChainInput := "1 * 2 + 3;"

  lemma ChainSteps()
    ensures NumbersFit(ChainInput)
    ensures LexStep(ChainInput, 0) == Step(Int(1), 1)
    ensures LexStep(ChainInput, 1) == Step(Token.Asterisk, 3)
    ensures LexStep(ChainInput, 3) == Step(Int(2), 5)
    ensures LexStep(ChainInput, 5) == Step(Token.Plus, 7)
    ensures LexStep(ChainInput, 7) == Step(Int(3), 9)
    ensures LexStep(ChainInput, 9) == Step(Semicolon, 10)
  {
    ChainStepsLeft();
    ChainStepsRight();
  }

  lemma ChainStepsLeft()
    ensures NumbersFit(ChainInput)
    ensures LexStep(ChainInput, 0) == Step(Int(1), 1)
    ensures LexStep(ChainInput, 1) == Step(Token.Asterisk, 3)
    ensures LexStep(ChainInput, 3) == Step(Int(2), 5)
  {
    var input := ChainInput;
    LexerProperties.ShortInputFits(input);
    assert LexStep(input, 0) == Step(Int(1), 1) by {
      assert NumberEnd(input, 0) == 1 by { assert NumberEnd(input, 1) == 1; }
      assert input[0..1] == "1";
    }
    ChainStepsMiddle();
  }

  lemma ChainStepsMiddle()
    ensures NumbersFit(ChainInput)
    ensures LexStep(ChainInput, 1) == Step(Token.Asterisk, 3)
    ensures LexStep(ChainInput, 3) == Step(Int(2), 5)
  {
    var input := ChainInput;
    LexerProperties.ShortInputFits(input);
    assert WhitespaceEnd(input, 1) == 2 by { assert WhitespaceEnd(input, 2) == 2; }
    assert WhitespaceEnd(input, 3) == 4 by { assert WhitespaceEnd(input, 4) == 4; }
    assert NumberEnd(input, 4) == 5 by { assert NumberEnd(input, 5) == 5; }
    assert input[4..5] == "2";
  }

  lemma ChainStepsRight()
    ensures NumbersFit(ChainInput)
    ensures LexStep(ChainInput, 5) == Step(Token.Plus, 7)
    ensures LexStep(ChainInput, 7) == Step(Int(3), 9)
    ensures LexStep(ChainInput, 9) == Step(Semicolon, 10)
  {
    var input := ChainInput;
    LexerProperties.ShortInputFits(input);
    assert WhitespaceEnd(input, 5) == 6 by { assert WhitespaceEnd(input, 6) == 6; }
    assert WhitespaceEnd(input, 7) == 8 by { assert WhitespaceEnd(input, 8) == 8; }
    assert NumberEnd(input, 8) == 9 by { assert NumberEnd(input, 9) == 9; }
    assert input[8..9] == "3";
  }

  lemma ChainParse(input: string)
    requires NumbersFit(input) && |input| == 10
    requires LexStep(input, 0) == Step(Int(1), 1)
    requires LexStep(input, 1) == Step(Token.Asterisk, 3)
    requires LexStep(input, 3) == Step(Int(2), 5)
    requires LexStep(input, 5) == Step(Token.Plus, 7)
    requires LexStep(input, 7) == Step(Int(3), 9)
    requires LexStep(input, 9) == Step(Semicolon, 10)
    ensures Parse(input) == Done([ExprStmt(InfixExpr(Infix.Asterisk, LiteralExpr(IntLit(1)),
                                   InfixExpr(Infix.Plus, LiteralExpr(IntLit(2)), LiteralExpr(IntLit(3)))))],
                                 PState(EOF, EOF, 12, []))
  {
    var s0 := PState(Int(1), Token.Asterisk, 3, []);
    var s1 := PState(Token.Asterisk, Int(2), 5, []);
    var s2 := PState(Int(2), Token.Plus, 7, []);
    var s3 := PState(Token.Plus, Int(3), 9, []);
    var s4 := PState(Int(3), Semicolon, 10, []);
    var s5 := PState(Semicolon, EOF, 11, []);
    assert Init(input, 0) == s0 && Advance(input, s0) == s1 && Advance(input, s1) == s2;
    assert Advance(input, s2) == s3 && Advance(input, s3) == s4 && Advance(input, s4) == s5;
    assert Advance(input, s5).cur == EOF;
    ChainStatement(input, s0, s1, s2, s3, s4);
    OneStatement(input, ExprStmt(InfixExpr(Infix.Asterisk, LiteralExpr(IntLit(1)),
                                   InfixExpr(Infix.Plus, LiteralExpr(IntLit(2)), LiteralExpr(IntLit(3))))), s5);
  }

  lemma ChainStatement(input: string, s0: PState, s1: PState, s2: PState, s3: PState, s4: PState)
    requires NumbersFit(input)
    requires s0.cur == Int(1) && s0.peek == Token.Asterisk && s1 == Advance(input, s0)
    requires s2 == Advance(input, s1) && s2.cur == Int(2) && s2.peek == Token.Plus && s3 == Advance(input, s2)
    requires s4 == Advance(input, s3) && s4.cur == Int(3) && s4.peek == Semicolon
    ensures ParseStmt(input, s0)
         == Done(Some(ExprStmt(InfixExpr(Infix.Asterisk, LiteralExpr(IntLit(1)),
                                 InfixExpr(Infix.Plus, LiteralExpr(IntLit(2)), LiteralExpr(IntLit(3)))))),
                 Advance(input, s4))
  {
    assert AdvanceN(input, s0, 2) == s2;
    assert AdvanceN(input, s0, 4) == s4 by {
      AdvanceNSucc(input, s0, 3);
      AdvanceNSucc(input, s1, 2);
      AdvanceNSucc(input, s2, 1);
    }
    ChainNestsRight(input, s0, Precedence.Lowest);
    ExpressionStatement(input, s0);
  }

  /**
   * `1 * 2 + 3;` groups to the right, `1 * (2 + 3)`: the operand after an
   * operator is parsed without regard to precedence.
   */
  lemma ChainGroupsRight()
    ensures NumbersFit(ChainInput)
    ensures Parse(ChainInput) == Done([ExprStmt(InfixExpr(Infix.Asterisk, LiteralExpr(IntLit(1)),
                                   InfixExpr(Infix.Plus, LiteralExpr(IntLit(2)), LiteralExpr(IntLit(3)))))],
                                 PState(EOF, EOF, 12, []))
  {
    ChainSteps();
    ChainParse(ChainInput);
  }

  const UnterminatedInput := "return 5"

  lemma UnterminatedSteps()
    ensures NumbersFit(UnterminatedInput)
    ensures LexStep(UnterminatedInput, 0) == Step(Return, 6)
    ensures LexStep(UnterminatedInput, 6) == Step(Int(5), 8)
  {
    var input := UnterminatedInput;
    LexerProperties.ShortInputFits(input);
    assert IdentifierEnd(input, 0) == 6 by {
      assert IdentifierEnd(input, 6) == 6;
      assert IdentifierEnd(input, 5) == 6;
      assert IdentifierEnd(input, 4) == 6;
      assert IdentifierEnd(input, 3) == 6;
      assert IdentifierEnd(input, 2) == 6;
      assert IdentifierEnd(input, 1) == 6;
    }
    assert input[0..6] == "return";
    assert WhitespaceEnd(input, 6) == 7 by { assert WhitespaceEnd(input, 7) == 7; }
    assert NumberEnd(input, 7) == 8 by { assert NumberEnd(input, 8) == 8; }
    assert input[7..8] == "5";
  }

  lemma UnterminatedParse(input: string)
    requires NumbersFit(input) && |input| == 8
    requires LexStep(input, 0) == Step(Return, 6)
    requires LexStep(input, 6) == Step(Int(5), 8)
    ensures Parse(input).Diverges?
  {
    var s0 := PState(Return, Int(5), 8, []);
    var s1 := PState(Int(5), EOF, 9, []);
    assert Init(input, 0) == s0 && Advance(input, s0) == s1;
    assert Exhausted(input, Advance(input, s1));
    UnterminatedStatement(input, s0, s1);
  }

  lemma UnterminatedStatement(input: string, s0: PState, s1: PState)
    requires NumbersFit(input) && s0.cur == Return
    requires s1 == Advance(input, s0) && s1.cur == Int(5) && s1.peek == EOF && Exhausted(input, Advance(input, s1))
    ensures ParseStmt(input, s0).Diverges?
  {
    AtomAlone(input, s1, Precedence.Lowest);
    assert SkipToSemicolon(input, s1) == None;
    ReturnStatement(input, s0);
  }

  /** `return 5` with no `;` after it: the source's skip loop never ends. */
  lemma UnterminatedReturn()
    ensures NumbersFit(UnterminatedInput)
    ensures Parse(UnterminatedInput).Diverges?
  {
    UnterminatedSteps();
    UnterminatedParse(UnterminatedInput);
  }
}
