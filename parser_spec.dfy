/**
 * The parser of src/parser.rs as pure functions over an abstract parser
 * state: the two-token window, the lexer's cursor and the diagnostics so far.
 *
 * Termination rests on `Budget`, which every advance from a state that is not
 * exhausted strictly decreases. The exhausted state (both tokens EOF, no
 * input left) is a fixed point of advancing, so the source's skip-to-`;`
 * loops never end once they reach it; the functions report that as
 * `Diverges` instead of looping.
 */
module ParserSpec {
  import opened Wrappers
  import opened Tokens
  import opened LexerSpec
  import opened Ast

  /** A `peek_error`: the token expected next and the one found instead. */
  datatype Diagnostic = PeekError(expected: Token, got: Token)

  datatype PState = PState(cur: Token, peek: Token, pos: nat, errors: seq<Diagnostic>)

  /** A value produced by a step that always returns. */
  datatype Parsed<+T> = Parsed(value: T, state: PState)

  /** A step that returns with a value, or one that, in the source, never returns. */
  datatype Outcome<+T> = Done(value: T, state: PState) | Diverges

  /** Both tokens EOF and nothing left to read: advancing changes nothing observable. */
  predicate Exhausted(input: string, s: PState) {
    s.cur == EOF && s.peek == EOF && Remaining(input, s.pos) == 0
  }

  /** How many advances can still change the state: zero exactly when exhausted. */
  function Budget(input: string, s: PState): (b: nat)
    ensures b == 0 <==> Exhausted(input, s)
  {
    var rem := Remaining(input, s.pos);
    rem
    + (if rem > 0 || s.peek != EOF then 1 else 0)
    + (if rem > 0 || s.peek != EOF || s.cur != EOF then 1 else 0)
  }

  /** `next_token`: the peek token becomes current, the lexer supplies a new peek. */
  function Advance(input: string, s: PState): (t: PState)
    requires NumbersFit(input)
    ensures t.cur == s.peek && t.errors == s.errors
    ensures Budget(input, t) <= Budget(input, s)
    ensures !Exhausted(input, s) ==> Budget(input, t) < Budget(input, s)
    ensures Exhausted(input, s) ==> Exhausted(input, t)
  {
    var st := LexStep(input, s.pos);
    PState(s.peek, st.tok, st.next, s.errors)
  }

  /** `n` advances in a row. */
  function AdvanceN(input: string, s: PState, n: nat): PState
    requires NumbersFit(input)
    decreases n
  {
    if n == 0 then s else AdvanceN(input, Advance(input, s), n - 1)
  }

  /** `Parser::new` over a lexer whose cursor is at `pos`. */
  function Init(input: string, pos: nat): (s: PState)
    requires NumbersFit(input)
    ensures s.cur == LexStep(input, pos).tok && s.errors == []
    ensures s.peek == LexStep(input, LexStep(input, pos).next).tok
  {
    Advance(input, Advance(input, PState(EOF, EOF, pos, [])))
  }

  /** The tokens with a prefix handler in `parse_expr`. */
  predicate IsPrefixToken(t: Token) {
    t == Token.Bang || t == Token.Plus || t == Token.Minus
  }

  /** `peek_token_is_infix`: the tokens with an infix handler. */
  predicate IsInfixToken(t: Token) {
    t == Token.Plus || t == Token.Minus || t == Token.Asterisk || t == Token.Slash
    || t == Token.Lt || t == Token.Gt || t == Token.Equal || t == Token.NotEqual
  }

  /** The tokens that make a whole expression on their own: identifiers and integers. */
  predicate IsAtom(t: Token) {
    t.Ident? || t.Int?
  }

  /** The expression of an identifier or integer token. */
  function AtomOf(t: Token): Expr
    requires IsAtom(t)
  {
    if t.Ident? then IdentExpr(Ident.Ident(t.text)) else LiteralExpr(IntLit(t.value))
  }

  /** The rightmost leaf of an expression: the one read from its last token. */
  function LastAtom(e: Expr): Expr {
    match e
    case IdentExpr(_) => e
    case LiteralExpr(_) => e
    case PrefixExpr(_, x) => LastAtom(x)
    case InfixExpr(_, _, y) => LastAtom(y)
  }

  /** The operator of `parse_prefix_expr`'s match on the current token. */
  function PrefixOperator(t: Token): (r: Option<Prefix>)
    ensures r.Some? <==> IsPrefixToken(t)
  {
    match t
    case Bang => Some(Prefix.Bang)
    case Plus => Some(Prefix.Plus)
    case Minus => Some(Prefix.Minus)
    case _ => None
  }

  /** The operator of `parse_infix_expr`'s match on the current token. */
  function InfixOperator(t: Token): (r: Option<Infix>)
    ensures r.Some? <==> IsInfixToken(t)
  {
    match t
    case Plus => Some(Infix.Plus)
    case Minus => Some(Infix.Minus)
    case Asterisk => Some(Infix.Asterisk)
    case Slash => Some(Infix.Slash)
    case Lt => Some(Infix.Lt)
    case Gt => Some(Infix.Gt)
    case Equal => Some(Infix.Equal)
    case NotEqual => Some(Infix.NotEqual)
    case _ => None
  }

  /** `parse_ident`. */
  function ParseIdent(t: Token): (r: Option<Ident>)
    ensures r.Some? <==> t.Ident?
    ensures r.Some? ==> r.value.name == t.text
  {
    match t
    case Ident(text) => Some(Ident.Ident(text))
    case _ => None
  }

  /** `consume_token`: step onto `t` if it is next, otherwise record one diagnostic. */
  function ConsumeToken(input: string, s: PState, t: Token): (r: Parsed<bool>)
    requires NumbersFit(input)
    ensures r.value <==> s.peek == t
    ensures r.value ==> r.state == Advance(input, s)
    ensures !r.value ==> r.state == s.(errors := s.errors + [PeekError(t, s.peek)])
  {
    if s.peek == t then Parsed(true, Advance(input, s))
    else Parsed(false, s.(errors := s.errors + [PeekError(t, s.peek)]))
  }

  /**
   * `parse_expr`. The precedence argument is never read. On success the
   * current token is the expression's last token, the identifier or integer
   * of its rightmost leaf, and the peek token is not an infix operator, so
   * the expression is maximal. No diagnostic is ever recorded.
   */
  function ParseExpr(input: string, s: PState, precedence: Precedence): (r: Parsed<Option<Expr>>)
    requires NumbersFit(input)
    ensures Budget(input, r.state) <= Budget(input, s)
    ensures r.state.errors == s.errors
    ensures r.value.Some? ==> !IsInfixToken(r.state.peek) && IsAtom(r.state.cur)
    ensures r.value.Some? ==> LastAtom(r.value.value) == AtomOf(r.state.cur)
    ensures r.value.Some? ==> !HasStringLit(r.value.value)
    ensures r.value.Some? ==> Size(r.value.value) + Budget(input, r.state) <= Budget(input, s) + 1
    ensures !(s.cur.Ident? || s.cur.Int? || IsPrefixToken(s.cur)) ==> r == Parsed(None, s)
    decreases Budget(input, s), 2
  {
    var left :=
      if s.cur.Ident? then Parsed(ParseIdentExpr(s.cur), s)
      else if s.cur.Int? then Parsed(ParseIntExpr(s.cur), s)
      else if IsPrefixToken(s.cur) then ParsePrefixExpr(input, s)
      else Parsed(None, s);
    if !(s.cur.Ident? || s.cur.Int? || IsPrefixToken(s.cur)) then left
    else if !IsInfixToken(left.state.peek) then left
    else
      var s1 := Advance(input, left.state);
      match left.value
      case Some(e) => ParseInfixExpr(input, s1, e)
      case None => Parsed(None, s1)
  }

  /** `parse_ident_expr`. */
  function ParseIdentExpr(cur: Token): (r: Option<Expr>)
    ensures r.Some? <==> cur.Ident?
    ensures r.Some? ==> r.value == IdentExpr(Ident.Ident(cur.text))
  {
    match ParseIdent(cur)
    case Some(id) => Some(IdentExpr(id))
    case None => None
  }

  /** `parse_int_expr`. */
  function ParseIntExpr(cur: Token): (r: Option<Expr>)
    ensures r.Some? <==> cur.Int?
    ensures r.Some? ==> r.value == LiteralExpr(IntLit(cur.value))
  {
    match cur
    case Int(v) => Some(LiteralExpr(IntLit(v)))
    case _ => None
  }

  /** `parse_prefix_expr`: the operand is parsed at `Lowest`, so it takes in any infix chain that follows. */
  function ParsePrefixExpr(input: string, s: PState): (r: Parsed<Option<Expr>>)
    requires NumbersFit(input)
    ensures Budget(input, r.state) <= Budget(input, s)
    ensures r.state.errors == s.errors
    ensures r.value.Some? ==> !IsInfixToken(r.state.peek) && IsAtom(r.state.cur)
    ensures r.value.Some? ==> LastAtom(r.value.value) == AtomOf(r.state.cur)
    ensures r.value.Some? ==> !HasStringLit(r.value.value)
    ensures r.value.Some? ==> Size(r.value.value) + Budget(input, r.state) <= Budget(input, s) + 1
    ensures !IsPrefixToken(s.cur) ==> r == Parsed(None, s)
    decreases Budget(input, s), 1
  {
    match PrefixOperator(s.cur)
    case None => Parsed(None, s)
    case Some(op) =>
      var operand := ParseExpr(input, Advance(input, s), Precedence.Lowest);
      match operand.value
      case Some(e) => Parsed(Some(PrefixExpr(op, e)), operand.state)
      case None => Parsed(None, operand.state)
  }

  /** `parse_infix_expr`: the right operand is parsed at `Lowest`, so chains nest to the right. */
  function ParseInfixExpr(input: string, s: PState, left: Expr): (r: Parsed<Option<Expr>>)
    requires NumbersFit(input)
    requires !HasStringLit(left)
    ensures Budget(input, r.state) <= Budget(input, s)
    ensures r.state.errors == s.errors
    ensures r.value.Some? ==> !IsInfixToken(r.state.peek) && IsAtom(r.state.cur)
    ensures r.value.Some? ==> LastAtom(r.value.value) == AtomOf(r.state.cur)
    ensures r.value.Some? ==> !HasStringLit(r.value.value)
    ensures r.value.Some? ==> Size(r.value.value) + Budget(input, r.state) <= Size(left) + Budget(input, s) + 1
    ensures !IsInfixToken(s.cur) ==> r == Parsed(None, s)
    decreases Budget(input, s), 1
  {
    match InfixOperator(s.cur)
    case None => Parsed(None, s)
    case Some(op) =>
      var right := ParseExpr(input, Advance(input, s), Precedence.Lowest);
      match right.value
      case Some(e) => Parsed(Some(InfixExpr(op, left, e)), right.state)
      case None => Parsed(None, right.state)
  }

  /**
   * The loop `while !cur_token_is(Semicolon) { next_token() }`. It returns
   * the state on the first `;`, or `None` once the state is exhausted
   * without one: from there the source loop runs forever.
   */
  function SkipToSemicolon(input: string, s: PState): (r: Option<PState>)
    requires NumbersFit(input)
    ensures r.Some? ==> r.value.cur == Semicolon && r.value.errors == s.errors
    ensures r.Some? ==> Budget(input, r.value) <= Budget(input, s)
    decreases Budget(input, s)
  {
    if s.cur == Semicolon then Some(s)
    else if Exhausted(input, s) then None
    else SkipToSemicolon(input, Advance(input, s))
  }

  /** `parse_let_stmt`. */
  function ParseLetStmt(input: string, s: PState): (r: Outcome<Option<Stmt>>)
    requires NumbersFit(input)
    ensures r.Done? ==> Budget(input, r.state) <= Budget(input, s)
    ensures r.Done? ==> r.state.errors == s.errors || r.state.errors == s.errors + [PeekError(Assign, Advance(input, s).peek)]
    ensures r.Done? && r.value.Some? ==> ParserShaped(r.value.value) && r.value.value.LetStmt?
  {
    if !s.peek.Ident? then Done(None, s)
    else
      var s1 := Advance(input, s);
      match ParseIdent(s1.cur)
      case None => Done(None, s1)
      case Some(name) =>
        var assign := ConsumeToken(input, s1, Assign);
        if !assign.value then Done(None, assign.state)
        else
          var e := ParseExpr(input, Advance(input, assign.state), Precedence.Lowest);
          match e.value
          case None => Done(None, e.state)
          case Some(value) =>
            match SkipToSemicolon(input, e.state)
            case None => Diverges
            case Some(s2) => Done(Some(LetStmt(name, value)), s2)
  }

  /** `parse_return_stmt`. */
  function ParseReturnStmt(input: string, s: PState): (r: Outcome<Option<Stmt>>)
    requires NumbersFit(input)
    ensures r.Done? ==> Budget(input, r.state) <= Budget(input, s)
    ensures r.Done? ==> r.state.errors == s.errors
    ensures r.Done? && r.value.Some? ==> ParserShaped(r.value.value) && r.value.value.ReturnStmt?
  {
    var e := ParseExpr(input, Advance(input, s), Precedence.Lowest);
    match e.value
    case None => Done(None, e.state)
    case Some(value) =>
      match SkipToSemicolon(input, e.state)
      case None => Diverges
      case Some(s1) => Done(Some(ReturnStmt(value)), s1)
  }

  /** `parse_expr_stmt`: a following `;` is consumed; a missing one is reported, the statement kept. */
  function ParseExprStmt(input: string, s: PState): (r: Parsed<Option<Stmt>>)
    requires NumbersFit(input)
    ensures Budget(input, r.state) <= Budget(input, s)
    ensures r.value.Some? ==> ParserShaped(r.value.value) && r.value.value.ExprStmt?
    ensures r.value.None? ==> r.state.errors == s.errors
    ensures s.errors <= r.state.errors && |r.state.errors| <= |s.errors| + 1
  {
    var e := ParseExpr(input, s, Precedence.Lowest);
    match e.value
    case Some(value) =>
      var semi := ConsumeToken(input, e.state, Semicolon);
      Parsed(Some(ExprStmt(value)), semi.state)
    case None => Parsed(None, e.state)
  }

  /** `parse_stmt`: dispatch on the current token. */
  function ParseStmt(input: string, s: PState): (r: Outcome<Option<Stmt>>)
    requires NumbersFit(input)
    ensures r.Done? ==> Budget(input, r.state) <= Budget(input, s)
    ensures r.Done? && r.value.Some? ==> ParserShaped(r.value.value)
    ensures r.Done? ==> s.errors <= r.state.errors && |r.state.errors| <= |s.errors| + 1
    ensures r.Diverges? ==> s.cur == Let || s.cur == Return
  {
    if s.cur == Let then ParseLetStmt(input, s)
    else if s.cur == Return then ParseReturnStmt(input, s)
    else
      var e := ParseExprStmt(input, s);
      Done(e.value, e.state)
  }

  function OptionToSeq<T>(o: Option<T>): seq<T> {
    match o
    case Some(x) => [x]
    case None => []
  }

  /**
   * The loop of `parse_program` from state `s`: parse a statement, keep it
   * when there is one, advance, until the current token is EOF.
   */
  function ParseProgramFrom(input: string, s: PState): (r: Outcome<Program>)
    requires NumbersFit(input)
    ensures r.Done? ==> r.state.cur == EOF
    ensures r.Done? ==> forall i :: 0 <= i < |r.value| ==> ParserShaped(r.value[i])
    decreases Budget(input, s)
  {
    if s.cur == EOF then Done([], s)
    else
      match ParseStmt(input, s)
      case Diverges => Diverges
      case Done(st, s1) =>
        match ParseProgramFrom(input, Advance(input, s1))
        case Diverges => Diverges
        case Done(rest, s2) => Done(OptionToSeq(st) + rest, s2)
  }

  /** Lexing and parsing a whole input: `Parser::new(Lexer::new(input)).parse_program()`. */
  function Parse(input: string): (r: Outcome<Program>)
    requires NumbersFit(input)
    ensures r.Done? ==> r.state.cur == EOF
    ensures r.Done? ==> forall i :: 0 <= i < |r.value| ==> ParserShaped(r.value[i])
  {
    ParseProgramFrom(input, Init(input, 0))
  }
}
