/**
 * The `Parser` struct of src/parser.rs: it owns a `Lexer`, a two-token
 * window and the list of diagnostics, and its methods update them in place.
 * Every method is proved to move the abstract state `State()` exactly as the
 * corresponding function of `ParserSpec` does.
 *
 * Where the source would loop forever (a `let` or `return` statement with
 * no `;` anywhere after it), a method returns with `halts == false`, in the
 * exhausted state from which the source never leaves its loop.
 */
module Parsing {
  import opened Wrappers
  import opened Tokens
  import opened LexerSpec
  import opened Lexing
  import opened Ast
  import opened ParserSpec

  class Parser {
    const l: Lexer
    var curToken: Token
    var peekToken: Token
    var errors: seq<Diagnostic>

    ghost predicate Valid()
      reads this, l
    {
      l.Valid()
    }

    /** The abstract state: window, lexer cursor and diagnostics. */
    ghost function State(): PState
      reads this, l
    {
      PState(curToken, peekToken, l.position, errors)
    }

    /** Takes over a lexer and fills the window with its first two tokens. */
    constructor (l: Lexer)
      requires l.Valid()
      modifies l
      ensures Valid() && this.l == l
      ensures State() == Init(l.input, old(l.position))
    {
      this.l := l;
      curToken := EOF;
      peekToken := EOF;
      errors := [];
      new;
      NextToken();
      NextToken();
    }

    /** Shifts the window by one token. */
    method NextToken()
      requires Valid()
      modifies this, l
      ensures Valid() && State() == Advance(l.input, old(State()))
    {
      curToken := peekToken;
      peekToken := l.NextToken();
    }

    /** Parses statements until the current token is EOF. */
    method ParseProgram() returns (program: Program, halts: bool)
      requires Valid()
      modifies this, l
      ensures Valid()
      ensures halts <==> ParseProgramFrom(l.input, old(State())).Done?
      ensures halts ==> ParseProgramFrom(l.input, old(State())) == Done(program, State())
      ensures !halts ==> Exhausted(l.input, State())
    {
      program := [];
      ghost var s0 := State();
      ghost var whole := ParseProgramFrom(l.input, s0);
      assert whole.Done? ==> [] + whole.value == whole.value;
      while curToken != EOF
        invariant Valid()
        invariant ParseProgramFrom(l.input, s0) == Prepend(program, ParseProgramFrom(l.input, State()))
        decreases Budget(l.input, State())
      {
        ghost var before := State();
        ghost var done := program;
        var stmt, ok := ParseStmt();
        if !ok {
          halts := false;
          return;
        }
        match stmt {
          case Some(st) => program := program + [st];
          case None =>
        }
        assert program == done + OptionToSeq(stmt);
        NextToken();
        assert Budget(l.input, State()) < Budget(l.input, before);
        PrependTwice(done, OptionToSeq(stmt), ParseProgramFrom(l.input, State()));
      }
      assert program + [] == program;
      halts := true;
    }

    /** `parse_stmt`; `ok` is false when the source would never return. */
    method ParseStmt() returns (stmt: Option<Stmt>, ok: bool)
      requires Valid()
      modifies this, l
      ensures Valid()
      ensures ok <==> ParserSpec.ParseStmt(l.input, old(State())).Done?
      ensures ok ==> ParserSpec.ParseStmt(l.input, old(State())) == Done(stmt, State())
      ensures !ok ==> Exhausted(l.input, State())
    {
      if curToken == Let {
        stmt, ok := ParseLetStmt();
      } else if curToken == Return {
        stmt, ok := ParseReturnStmt();
      } else {
        stmt := ParseExprStmt();
        ok := true;
      }
    }

    method ParseLetStmt() returns (stmt: Option<Stmt>, ok: bool)
      requires Valid()
      modifies this, l
      ensures Valid()
      ensures ok <==> ParserSpec.ParseLetStmt(l.input, old(State())).Done?
      ensures ok ==> ParserSpec.ParseLetStmt(l.input, old(State())) == Done(stmt, State())
      ensures !ok ==> Exhausted(l.input, State())
    {
      ok := true;
      match peekToken {
        case Ident(_) => NextToken();
        case _ => return None, true;
      }
      var name;
      match ParseIdent() {
        case Some(n) => name := n;
        case None => return None, true;
      }
      var consumed := ConsumeToken(Assign);
      if !consumed {
        return None, true;
      }
      NextToken();
      var expr;
      var e := ParseExpr(Precedence.Lowest);
      match e {
        case Some(x) => expr := x;
        case None => return None, true;
      }
      ok := SkipToSemicolon();
      if ok {
        stmt := Some(LetStmt(name, expr));
      } else {
        stmt := None;
      }
    }

    method ParseReturnStmt() returns (stmt: Option<Stmt>, ok: bool)
      requires Valid()
      modifies this, l
      ensures Valid()
      ensures ok <==> ParserSpec.ParseReturnStmt(l.input, old(State())).Done?
      ensures ok ==> ParserSpec.ParseReturnStmt(l.input, old(State())) == Done(stmt, State())
      ensures !ok ==> Exhausted(l.input, State())
    {
      ghost var s0 := State();
      NextToken();
      assert State() == Advance(l.input, s0);
      var expr;
      var e := ParseExpr(Precedence.Lowest);
      ghost var s1 := State();
      assert ParserSpec.ParseExpr(l.input, Advance(l.input, s0), Precedence.Lowest) == Parsed(e, s1);
      match e {
        case Some(x) => expr := x;
        case None =>
          assert ParserSpec.ParseReturnStmt(l.input, s0) == Done(None, s1);
          return None, true;
      }
      ok := SkipToSemicolon();
      assert ok <==> ParserSpec.SkipToSemicolon(l.input, s1).Some?;
      if ok {
        stmt := Some(ReturnStmt(expr));
        assert ParserSpec.ParseReturnStmt(l.input, s0) == Done(stmt, State());
      } else {
        stmt := None;
      }
    }

    /**
     * The loop `while !self.cur_token_is(Token::Semicolon) { self.next_token() }`
     * of `parse_let_stmt` and `parse_return_stmt`. Returns false, instead of
     * looping forever, once the state is exhausted without a `;`.
     */
    method SkipToSemicolon() returns (found: bool)
      requires Valid()
      modifies this, l
      ensures Valid()
      ensures found <==> ParserSpec.SkipToSemicolon(l.input, old(State())).Some?
      ensures found ==> ParserSpec.SkipToSemicolon(l.input, old(State())) == Some(State())
      ensures !found ==> Exhausted(l.input, State())
    {
      ghost var s0 := State();
      while !CurTokenIs(Semicolon)
        invariant Valid()
        invariant ParserSpec.SkipToSemicolon(l.input, s0) == ParserSpec.SkipToSemicolon(l.input, State())
        decreases Budget(l.input, State())
      {
        if curToken == EOF && peekToken == EOF && l.position >= |l.input| {
          return false;
        }
        NextToken();
      }
      found := true;
    }

    /** `parse_ident`. */
    function ParseIdent(): (r: Option<Ident>)
      reads this
      ensures r.Some? <==> curToken.Ident?
      ensures r.Some? ==> r.value.name == curToken.text
    {
      ParserSpec.ParseIdent(curToken)
    }

    method ParseExprStmt() returns (stmt: Option<Stmt>)
      requires Valid()
      modifies this, l
      ensures Valid() && ParserSpec.ParseExprStmt(l.input, old(State())) == Parsed(stmt, State())
    {
      var e := ParseExpr(Precedence.Lowest);
      match e {
        case Some(x) =>
          var _ := ConsumeToken(Semicolon);
          stmt := Some(ExprStmt(x));
        case None => stmt := None;
      }
    }

    /** `parse_expr`; `precedence` is accepted and, as in the source, never read. */
    method ParseExpr(precedence: Precedence) returns (e: Option<Expr>)
      requires Valid()
      modifies this, l
      ensures Valid() && ParserSpec.ParseExpr(l.input, old(State()), precedence) == Parsed(e, State())
      decreases Budget(l.input, State()), 2
    {
      ghost var s0 := State();
      var left;
      if curToken.Ident? {
        left := ParseIdentExpr();
      } else if curToken.Int? {
        left := ParseIntExpr();
      } else if IsPrefixToken(curToken) {
        left := ParsePrefixExpr();
      } else {
        return None;
      }
      ghost var s1 := State();
      assert s0.cur.Ident? || s0.cur.Int? || IsPrefixToken(s0.cur);
      assert Budget(l.input, s1) <= Budget(l.input, s0);
      if !PeekTokenIsInfix() {
        return left;
      }
      NextToken();
      match left {
        case Some(x) => e := ParseInfixExpr(x);
        case None => e := None;
      }
    }

    /** `parse_ident_expr`. */
    function ParseIdentExpr(): (r: Option<Expr>)
      reads this
      ensures r.Some? <==> curToken.Ident?
      ensures r.Some? ==> r.value == IdentExpr(Ident.Ident(curToken.text))
    {
      ParserSpec.ParseIdentExpr(curToken)
    }

    /** `parse_int_expr`. */
    function ParseIntExpr(): (r: Option<Expr>)
      reads this
      ensures r.Some? <==> curToken.Int?
      ensures r.Some? ==> r.value == LiteralExpr(IntLit(curToken.value))
    {
      ParserSpec.ParseIntExpr(curToken)
    }

    method ParsePrefixExpr() returns (e: Option<Expr>)
      requires Valid()
      modifies this, l
      ensures Valid() && ParserSpec.ParsePrefixExpr(l.input, old(State())) == Parsed(e, State())
      decreases Budget(l.input, State()), 1
    {
      var prefix;
      match PrefixOperator(curToken) {
        case Some(op) => prefix := op;
        case None => return None;
      }
      NextToken();
      var operand := ParseExpr(Precedence.Lowest);
      match operand {
        case Some(x) => e := Some(PrefixExpr(prefix, x));
        case None => e := None;
      }
    }

    method ParseInfixExpr(left: Expr) returns (e: Option<Expr>)
      requires Valid() && !HasStringLit(left)
      modifies this, l
      ensures Valid() && ParserSpec.ParseInfixExpr(l.input, old(State()), left) == Parsed(e, State())
      decreases Budget(l.input, State()), 1
    {
      var infix;
      match InfixOperator(curToken) {
        case Some(op) => infix := op;
        case None => return None;
      }
      NextToken();
      var right := ParseExpr(Precedence.Lowest);
      match right {
        case Some(x) => e := Some(InfixExpr(infix, left, x));
        case None => e := None;
      }
    }

    function CurTokenIs(tok: Token): (b: bool)
      reads this
      ensures b <==> State().cur == tok
    {
      curToken == tok
    }

    function PeekTokenIs(tok: Token): (b: bool)
      reads this
      ensures b <==> State().peek == tok
    {
      peekToken == tok
    }

    function PeekTokenIsInfix(): (b: bool)
      reads this
      ensures b <==> IsInfixToken(peekToken)
    {
      match peekToken
      case Plus | Minus | Asterisk | Slash | Lt | Gt | Equal | NotEqual => true
      case _ => false
    }

    /** `consume_token`. */
    method ConsumeToken(tok: Token) returns (consumed: bool)
      requires Valid()
      modifies this, l
      ensures Valid() && ParserSpec.ConsumeToken(l.input, old(State()), tok) == Parsed(consumed, State())
    {
      if PeekTokenIs(tok) {
        NextToken();
        consumed := true;
      } else {
        PeekError(tok);
        consumed := false;
      }
    }

    /** `peek_error`: records the expected token and the one found. */
    method PeekError(tok: Token)
      modifies this
      ensures errors == old(errors) + [ParserSpec.PeekError(tok, peekToken)]
      ensures curToken == old(curToken) && peekToken == old(peekToken)
    {
      errors := errors + [ParserSpec.PeekError(tok, peekToken)];
    }
  }

  /** The accumulator of `parse_program`'s loop, put in front of what the rest parses to. */
  ghost function Prepend(program: Program, rest: Outcome<Program>): Outcome<Program> {
    match rest
    case Done(p, s) => Done(program + p, s)
    case Diverges => Diverges
  }

  lemma PrependTwice(done: Program, more: Program, rest: Outcome<Program>)
    ensures Prepend(done, Prepend(more, rest)) == Prepend(done + more, rest)
  {
    if rest.Done? {
      assert done + (more + rest.value) == (done + more) + rest.value;
    }
  }
}
