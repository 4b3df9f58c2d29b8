/** Properties of the parser specification. */
module ParserProperties {
  import opened Wrappers
  import opened Tokens
  import opened LexerSpec
  import opened Ast
  import opened ParserSpec

  /** After `Parser::new`, the window holds the lexer's first two tokens and no diagnostic. */
  lemma InitWindow(input: string, pos: nat)
    requires NumbersFit(input)
    ensures var first := LexStep(input, pos);
      var second := LexStep(input, first.next);
      Init(input, pos) == PState(first.tok, second.tok, second.next, [])
  {
  }

  /**
   * The window slides over exactly the lexer's token stream: after `k`
   * advances, the current token is the `k`-th of `cur`, `peek` and the
   * tokens the lexer produces next.
   */
  lemma {:induction false} WindowFollowsLexer(input: string, s: PState, n: nat, k: nat)
    requires NumbersFit(input) && k <= n + 1
    ensures AdvanceN(input, s, k).cur == ([s.cur, s.peek] + TokensFrom(input, s.pos, n))[k]
    ensures AdvanceN(input, s, k).errors == s.errors
    decreases k
  {
    if k > 1 {
      WindowFollowsLexer(input, Advance(input, s), n - 1, k - 1);
      WindowShift(input, s, n, k);
    }
  }

  /** Advancing once drops the front of the window and pulls in the next lexer token. */
  lemma WindowShift(input: string, s: PState, n: nat, k: nat)
    requires NumbersFit(input) && 2 <= k <= n + 1
    ensures var t := Advance(input, s);
      ([s.cur, s.peek] + TokensFrom(input, s.pos, n))[k] == ([t.cur, t.peek] + TokensFrom(input, t.pos, n - 1))[k - 1]
  {
    var st := LexStep(input, s.pos);
    var rest := TokensFrom(input, st.next, n - 1);
    assert TokensFrom(input, s.pos, n) == [st.tok] + rest;
    assert ([s.cur, s.peek] + ([st.tok] + rest))[k] == ([st.tok] + rest)[k - 2];
  }

  /**
   * The exhausted state stays exhausted however often the parser advances,
   * and only the lexer's cursor moves: one byte further per advance.
   */
  lemma {:induction false} ExhaustedForever(input: string, s: PState, n: nat)
    requires NumbersFit(input) && Exhausted(input, s)
    ensures Exhausted(input, AdvanceN(input, s, n))
    ensures AdvanceN(input, s, n).pos == s.pos + n
    ensures AdvanceN(input, s, n).errors == s.errors
    decreases n
  {
    if n > 0 {
      ExhaustedForever(input, Advance(input, s), n - 1);
    }
  }

  lemma AdvanceNSucc(input: string, s: PState, n: nat)
    requires NumbersFit(input)
    ensures AdvanceN(input, s, n + 1) == AdvanceN(input, Advance(input, s), n)
  {
  }

  /**
   * The skip-to-`;` loop runs forever exactly when no `;` ever becomes the
   * current token; otherwise it stops on the first one.
   */
  lemma {:induction false} SkipDivergesIffNoSemicolon(input: string, s: PState)
    requires NumbersFit(input)
    ensures SkipToSemicolon(input, s).None? ==> forall n: nat :: AdvanceN(input, s, n).cur != Semicolon
    ensures (forall n: nat :: AdvanceN(input, s, n).cur != Semicolon) ==> SkipToSemicolon(input, s).None?
    decreases Budget(input, s)
  {
    if s.cur == Semicolon {
      assert AdvanceN(input, s, 0).cur == Semicolon;
    } else if Exhausted(input, s) {
      forall n: nat ensures AdvanceN(input, s, n).cur != Semicolon {
        ExhaustedForever(input, s, n);
      }
    } else {
      var t := Advance(input, s);
      assert SkipToSemicolon(input, s) == SkipToSemicolon(input, t);
      SkipDivergesIffNoSemicolon(input, t);
      forall n: nat ensures AdvanceN(input, s, n + 1) == AdvanceN(input, t, n) {
        AdvanceNSucc(input, s, n);
      }
      if forall n: nat :: AdvanceN(input, t, n).cur != Semicolon {
        forall n: nat ensures AdvanceN(input, s, n).cur != Semicolon {
          if n > 0 {
            assert AdvanceN(input, s, (n - 1) + 1) == AdvanceN(input, t, n - 1);
          }
        }
        assert SkipToSemicolon(input, s).None?;
        assert forall n: nat :: AdvanceN(input, s, n).cur != Semicolon;
      } else {
        var m: nat :| AdvanceN(input, t, m).cur == Semicolon;
        assert AdvanceN(input, s, m + 1) == AdvanceN(input, t, m);
        assert !(forall n: nat :: AdvanceN(input, s, n).cur != Semicolon);
        assert SkipToSemicolon(input, t).Some?;
      }
    }
  }

  /** When the loop stops, it stops after `k` advances on the first `;`. */
  lemma {:induction false} SkipStopsOnFirstSemicolon(input: string, s: PState) returns (k: nat)
    requires NumbersFit(input) && SkipToSemicolon(input, s).Some?
    ensures SkipToSemicolon(input, s) == Some(AdvanceN(input, s, k))
    ensures forall j :: 0 <= j < k ==> AdvanceN(input, s, j).cur != Semicolon
    decreases Budget(input, s)
  {
    if s.cur == Semicolon {
      k := 0;
    } else {
      var t := Advance(input, s);
      assert SkipToSemicolon(input, s) == SkipToSemicolon(input, t);
      var k' := SkipStopsOnFirstSemicolon(input, t);
      k := k' + 1;
      AdvanceNSucc(input, s, k');
      NoSemicolonBefore(input, s, k');
    }
  }

  /** No `;` in the first `k` states after one advance, and none now: none in the first `k + 1`. */
  lemma NoSemicolonBefore(input: string, s: PState, k: nat)
    requires NumbersFit(input) && s.cur != Semicolon
    requires forall j :: 0 <= j < k ==> AdvanceN(input, Advance(input, s), j).cur != Semicolon
    ensures forall j :: 0 <= j < k + 1 ==> AdvanceN(input, s, j).cur != Semicolon
  {
    forall j | 0 < j < k + 1 ensures AdvanceN(input, s, j).cur != Semicolon {
      AdvanceNSucc(input, s, j - 1);
    }
  }

  /** `parse_expr` returns the same whatever precedence it is given. */
  lemma ParseExprIgnoresPrecedence(input: string, s: PState, p: Precedence, q: Precedence)
    requires NumbersFit(input)
    ensures ParseExpr(input, s, p) == ParseExpr(input, s, q)
  {
  }

  /** An atom with no infix operator after it is the whole expression. */
  lemma AtomAlone(input: string, s: PState, prec: Precedence)
    requires NumbersFit(input) && IsAtom(s.cur) && !IsInfixToken(s.peek)
    ensures ParseExpr(input, s, prec) == Parsed(Some(AtomOf(s.cur)), s)
  {
  }

  /**
   * `a op rest`: the right operand is everything `parse_expr` reads after
   * the operator, from `Lowest`, so infix chains nest to the right.
   */
  lemma InfixNestsRight(input: string, s: PState, prec: Precedence)
    requires NumbersFit(input) && IsAtom(s.cur) && IsInfixToken(s.peek)
    ensures var right := ParseExpr(input, AdvanceN(input, s, 2), Precedence.Lowest);
      ParseExpr(input, s, prec)
      == if right.value.Some? then Parsed(Some(InfixExpr(InfixOperator(s.peek).value, AtomOf(s.cur), right.value.value)), right.state)
         else Parsed(None, right.state)
  {
    assert AdvanceN(input, s, 2) == Advance(input, Advance(input, s));
  }

  /** `a op1 b op2 c` yields `a op1 (b op2 c)` whatever the two operators are. */
  lemma ChainNestsRight(input: string, s: PState, prec: Precedence)
    requires NumbersFit(input)
    requires var s2 := AdvanceN(input, s, 2);
      var s4 := AdvanceN(input, s, 4);
      IsAtom(s.cur) && IsInfixToken(s.peek)
      && IsAtom(s2.cur) && IsInfixToken(s2.peek)
      && IsAtom(s4.cur) && !IsInfixToken(s4.peek)
    ensures var s2 := AdvanceN(input, s, 2);
      var s4 := AdvanceN(input, s, 4);
      ParseExpr(input, s, prec)
      == Parsed(Some(InfixExpr(InfixOperator(s.peek).value, AtomOf(s.cur),
                               InfixExpr(InfixOperator(s2.peek).value, AtomOf(s2.cur), AtomOf(s4.cur)))), s4)
  {
    var s2 := AdvanceN(input, s, 2);
    assert AdvanceN(input, s2, 2) == AdvanceN(input, s, 4) by {
      AdvanceNSucc(input, s, 3);
      AdvanceNSucc(input, Advance(input, s), 2);
      assert AdvanceN(input, s, 2) == Advance(input, Advance(input, s));
    }
    InfixNestsRight(input, s, prec);
    InfixNestsRight(input, s2, Precedence.Lowest);
    AtomAlone(input, AdvanceN(input, s, 4), Precedence.Lowest);
  }

  /** A prefix operator's operand is parsed from `Lowest`, so it takes in any infix chain that follows. */
  lemma PrefixSwallowsChain(input: string, s: PState, prec: Precedence)
    requires NumbersFit(input) && IsPrefixToken(s.cur)
    ensures var operand := ParseExpr(input, Advance(input, s), Precedence.Lowest);
      (ParseExpr(input, s, prec).value.Some? <==> operand.value.Some?)
      && (operand.value.Some? ==>
            ParseExpr(input, s, prec) == Parsed(Some(PrefixExpr(PrefixOperator(s.cur).value, operand.value.value)), operand.state))
  {
  }

  /** A statement that starts with a token no handler accepts yields nothing and no diagnostic, and does not move. */
  lemma NoHandlerNoStatement(input: string, s: PState)
    requires NumbersFit(input)
    requires s.cur != Let && s.cur != Return && !IsAtom(s.cur) && !IsPrefixToken(s.cur)
    ensures ParseStmt(input, s) == Done(None, s)
  {
  }

  /** `let` not followed by an identifier is dropped silently. */
  lemma LetWithoutIdent(input: string, s: PState)
    requires NumbersFit(input) && s.cur == Let && !s.peek.Ident?
    ensures ParseStmt(input, s) == Done(None, s)
  {
  }

  /** `let name` not followed by `=` records exactly one diagnostic and yields no statement. */
  lemma LetWithoutAssign(input: string, s: PState)
    requires NumbersFit(input) && s.cur == Let && s.peek.Ident?
    requires Advance(input, s).peek != Assign
    ensures var s1 := Advance(input, s);
      ParseStmt(input, s) == Done(None, s1.(errors := s.errors + [PeekError(Assign, s1.peek)]))
  {
  }

  /**
   * `let name = e` binds `name` to the expression after `=`, then skips to
   * the next `;`; with no `;` anywhere after it the source never returns.
   */
  lemma LetStatement(input: string, s: PState)
    requires NumbersFit(input) && s.cur == Let && s.peek.Ident?
    requires Advance(input, s).peek == Assign
    requires ParseExpr(input, AdvanceN(input, s, 3), Precedence.Lowest).value.Some?
    ensures var e := ParseExpr(input, AdvanceN(input, s, 3), Precedence.Lowest);
      var stmt := LetStmt(Ident.Ident(s.peek.text), e.value.value);
      ParseStmt(input, s)
      == match SkipToSemicolon(input, e.state)
         case Some(t) => Done(Some(stmt), t)
         case None => Diverges
    ensures var e := ParseExpr(input, AdvanceN(input, s, 3), Precedence.Lowest);
      ParseStmt(input, s).Diverges? ==> forall n: nat :: AdvanceN(input, e.state, n).cur != Semicolon
    ensures var e := ParseExpr(input, AdvanceN(input, s, 3), Precedence.Lowest);
      (forall n: nat :: AdvanceN(input, e.state, n).cur != Semicolon) ==> ParseStmt(input, s).Diverges?
  {
    var s1 := Advance(input, s);
    assert AdvanceN(input, s, 3) == Advance(input, Advance(input, s1));
    assert ConsumeToken(input, s1, Assign) == Parsed(true, Advance(input, s1));
    var e := ParseExpr(input, AdvanceN(input, s, 3), Precedence.Lowest);
    assert ParseStmt(input, s) == ParseLetStmt(input, s);
    SkipDivergesIffNoSemicolon(input, e.state);
  }

  /** `return e` likewise skips to the next `;`, and never returns if there is none. */
  lemma ReturnStatement(input: string, s: PState)
    requires NumbersFit(input) && s.cur == Return
    requires ParseExpr(input, Advance(input, s), Precedence.Lowest).value.Some?
    ensures var e := ParseExpr(input, Advance(input, s), Precedence.Lowest);
      ParseStmt(input, s)
      == match SkipToSemicolon(input, e.state)
         case Some(t) => Done(Some(ReturnStmt(e.value.value)), t)
         case None => Diverges
    ensures var e := ParseExpr(input, Advance(input, s), Precedence.Lowest);
      ParseStmt(input, s).Diverges? ==> forall n: nat :: AdvanceN(input, e.state, n).cur != Semicolon
    ensures var e := ParseExpr(input, Advance(input, s), Precedence.Lowest);
      (forall n: nat :: AdvanceN(input, e.state, n).cur != Semicolon) ==> ParseStmt(input, s).Diverges?
  {
    var e := ParseExpr(input, Advance(input, s), Precedence.Lowest);
    assert ParseStmt(input, s) == ParseReturnStmt(input, s);
    SkipDivergesIffNoSemicolon(input, e.state);
  }

  /**
   * An expression statement steps onto a following `;` silently; without
   * one it records one diagnostic and keeps the statement.
   */
  lemma ExpressionStatement(input: string, s: PState)
    requires NumbersFit(input) && s.cur != Let && s.cur != Return
    requires ParseExpr(input, s, Precedence.Lowest).value.Some?
    ensures var e := ParseExpr(input, s, Precedence.Lowest);
      var stmt := Some(ExprStmt(e.value.value));
      ParseStmt(input, s)
      == if e.state.peek == Semicolon then Done(stmt, Advance(input, e.state))
         else Done(stmt, e.state.(errors := s.errors + [PeekError(Semicolon, e.state.peek)]))
  {
  }

  /** Every statement of a parsed program is a `let`, `return` or expression statement without string literals. */
  lemma ParsedProgramShape(input: string)
    requires NumbersFit(input) && Parse(input).Done?
    ensures Parse(input).state.cur == EOF
    ensures forall i :: 0 <= i < |Parse(input).value| ==> Parse(input).value[i] != Blank
    ensures forall i :: 0 <= i < |Parse(input).value| ==> ParserShaped(Parse(input).value[i])
  {
    var prog := Parse(input).value;
    forall i | 0 <= i < |prog| ensures prog[i] != Blank {
      assert ParserShaped(prog[i]);
    }
  }
}
