# rucky lexer and parser, modelled in Dafny

rucky is an interpreter front end written in Rust for a small scripting language with a Monkey-like syntax. This project models its lexer and its statement parser.

- **Lexer** (`src/lexer.rs`). A byte cursor with the fields `position`, `read_position` and `ch`. Each call of `next_token` skips whitespace, joins `==` and `!=` into single tokens, scans maximal identifier and digit runs, and looks identifiers up in a keyword table. Any other byte becomes `Illegal`. Once the input is used up, every call returns `EOF`.
- **Parser** (`src/parser.rs`). A recursive-descent parser that owns the lexer. It keeps a two-token window (`cur_token`, `peek_token`) and a list of diagnostics. It parses `let`, `return` and expression statements until the current token is `EOF`.
- **Vocabulary** (`src/token.rs`, `src/ast.rs`). The tokens and the syntax tree, modelled as datatypes.

## How the model is laid out

- `tokens.dfy` and `ast.dfy` hold the vocabulary as datatypes.
  - `Token` has the variant set that `src/lexer.rs` and `src/parser.rs` use. `src/token.rs` declares fewer variants, names the `fn` keyword `Function`, and gives `Illegal` a payload the lexer never supplies.
  - `Prefix` and `Infix` likewise have the operators the parser builds.
  - The `Expr`, `Stmt` and `Literal` constructors carry a suffix: `IdentExpr`, `LetStmt`, `IntLit`, and so on. Unsuffixed they would share their names with `Token` constructors such as `Ident` and `Int`, and every use would need qualifying.
- `lexer_spec.dfy` (module `LexerSpec`) describes one `next_token` call as the pure function `LexStep` of the input and the cursor.
- `lexer.dfy` (class `Lexing.Lexer`) is proved against it.
  - The class has the source's fields and a `while` loop per scanning function.
  - Every method ends where `LexerSpec` says.
  - The invariant `Valid()` states `read_position == position + 1` and that `ch` is the byte at `position`.
- `parser_spec.dfy` (module `ParserSpec`) describes every parser method as a pure function over an abstract state `PState`. The state holds the window, the lexer's cursor and the diagnostics.
- `parser.dfy` (class `Parsing.Parser`) is proved against it. It holds the `Lexer` object itself.
  - Each method ensures that its new `State()` and its result are the ones the matching `ParserSpec` function computes from the old state.
  - `parse_program`'s loop keeps the invariant that the statements collected so far, followed by what the rest of the input parses to, are what the whole input parses to.
- `lexer_props.dfy` and `parser_props.dfy` state the properties of the two specifications as lemmas.
- `samples.dfy` works concrete inputs through lexing and parsing, `Parse(input)`. The inputs are statements from the unit tests, plus inputs that show the behaviour described below.

### Termination and divergence

The loop `while !self.cur_token_is(Token::Semicolon) { self.next_token() }` in `parse_let_stmt` and `parse_return_stmt` never ends when no `;` follows. Once both tokens are `EOF` and no input is left, advancing changes nothing but the lexer's cursor, which moves one byte further past the end on each call.

The model calls that state *exhausted*. The measure `Budget` is the number of bytes left plus two indicator bits for the window. It is zero exactly on an exhausted state, and every advance from any other state strictly decreases it.

The specification functions return `Diverges` where the source would loop forever. The methods return with a flag cleared (`halts`, `ok`, `found`), and each ensures that it then stops in the exhausted state, where the source would stay for ever. `SkipDivergesIffNoSemicolon` shows that this happens exactly when no later advance ever makes `;` the current token.

### Operator precedence and malformed statements

- **Precedence is declared but not used.** `src/ast.rs:40-49` declares seven binding strengths, with comments naming their operators, and `parse_expr` takes a `precendence` argument (`src/parser.rs:120`). No line of the parser reads it (`ParseExprIgnoresPrecedence`). Every right operand and every prefix operand is parsed from `Lowest` (`src/parser.rs:168`, `src/parser.rs:190`). So infix chains nest to the right whatever their operators: `1 * 2 + 3;` parses as `1 * (2 + 3)` (`ChainNestsRight`, `ChainGroupsRight`). A prefix operand takes in the whole chain after it (`PrefixSwallowsChain`).
- **A `let` without a name is dropped silently.** `let = 5;` yields the program `[5;]` with no diagnostic. The `let` gives no statement, `=` starts no statement, and `5;` becomes an expression statement (`LetWithoutName`).
- **A `let` without `=` records one diagnostic.** `let x 5;` records that `=` was expected and `5` found, then yields `[5;]` (`LetWithoutAssignment`).

## Model

| member | source | states |
|---|---|---|
| LexerSpec.WhitespaceEnd | src/lexer.rs:127-131 | the run of spaces, tabs, `\n` and `\r` from the cursor: every byte before the result is whitespace, the byte at the result is not, and the result never passes the end of the input |
| LexerSpec.IdentifierEnd | src/lexer.rs:93-99 | the maximal run of `[A-Za-z_]`: every byte before the result is a letter or `_`, the byte at the result is not, within the input |
| LexerSpec.NumberEnd | src/lexer.rs:101-107 | the maximal run of `[0-9]`: every byte before the result is a digit, the byte at the result is not, within the input |
| LexerSpec.IsLetter | src/lexer.rs:134-139 | `is_letter`: letters and `_` are neither digits nor whitespace nor NUL, so the lexer's classes do not overlap; `IdentifierToken` gives the run it starts |
| LexerSpec.IsDigit | src/lexer.rs:141-146 | `is_digit`: digits are neither whitespace nor NUL; `NumberToken` gives the run it starts |
| LexerSpec.DecimalValue | src/lexer.rs:124 | the value `parse::<i64>` gives a digit string; `n` digits stay below 10 to the power `n`, and `DecimalRoundTrip` shows it inverts decimal rendering |
| LexerSpec.LookupIdent | src/lexer.rs:111-120 | the keyword match yields either `Ident` carrying the text itself or one of the seven keyword tags; `LookupIdentMatchesTable` pins down which |
| LexerSpec.LexStep | src/lexer.rs:40-91 | one `next_token` strictly advances the cursor; past the end it yields `EOF` and moves by one; inside the input the bytes left strictly decrease |
| LexerSpec.TokensFrom | src/lexer.rs:40-91 | `n` successive calls of `next_token` give exactly `n` tokens |
| Lexing.Lexer.constructor | src/lexer.rs:11-20 | a new lexer holds the input with the cursor on byte 0 and satisfies the cursor invariant |
| Lexing.Lexer.ReadChar | src/lexer.rs:22-30 | `ch` becomes the byte at the old `read_position`, or NUL past the end; `position` takes the old `read_position`, which grows by one |
| Lexing.Lexer.PeekChar | src/lexer.rs:32-38 | the byte after the current one, or NUL past the end, without moving |
| Lexing.Lexer.NextToken | src/lexer.rs:40-91 | the token returned and the new cursor are those of `LexStep` from the old cursor, and the cursor invariant is kept |
| Lexing.Lexer.ReadIdentifier | src/lexer.rs:93-99 | the loop stops at the end of the identifier run, and the text returned is exactly the bytes from the old cursor to the new one |
| Lexing.Lexer.ReadNumber | src/lexer.rs:101-107 | the loop stops at the end of the digit run, and the digits returned are exactly the bytes from the old cursor to the new one |
| Lexing.Lexer.ConsumeIdentifier | src/lexer.rs:109-121 | the token is the keyword-table lookup of the scanned run, and the cursor ends at the end of that run |
| Lexing.Lexer.ConsumeNumber | src/lexer.rs:123-125 | the token is `Int` of the run's decimal value, and the cursor ends at the end of the run |
| Lexing.Lexer.SkipWhitespace | src/lexer.rs:127-131 | the cursor ends at the end of the whitespace run, keeping the cursor invariant |
| ParserSpec.Init | src/parser.rs:13-25 | `Parser::new`: the current and peek tokens are the lexer's first two, with no diagnostic; `InitWindow` gives the whole state |
| ParserSpec.Budget | src/parser.rs:78-80 | the termination measure is zero exactly on the exhausted state, in which both tokens are `EOF` and no input is left |
| ParserSpec.Advance | src/parser.rs:27-30 | `next_token` makes the old peek token current and keeps the diagnostics; it never raises the measure, strictly lowers it from a non-exhausted state, and keeps an exhausted state exhausted |
| ParserSpec.PrefixOperator | src/parser.rs:158-164 | an operator exists exactly for `!`, `+` and `-` |
| ParserSpec.InfixOperator | src/parser.rs:175-186 | an operator exists exactly for the eight tokens `peek_token_is_infix` accepts |
| ParserSpec.ParseIdent | src/parser.rs:101-106 | a name exists exactly when the current token is an identifier, and it carries that identifier's text |
| ParserSpec.ConsumeToken | src/parser.rs:218-226 | the result is true exactly when the peek token is the one expected; then the window advances once; otherwise the state is unchanged except for exactly one added diagnostic naming the expected and the found token |
| ParserSpec.ParseExpr | src/parser.rs:120-139 | it never adds a diagnostic or raises the measure; on success the current token is the expression's last token (the identifier or integer of its rightmost leaf) and the peek token is no infix operator, the tree has no string literal, and its size is at most the drop in `Budget` plus one; a current token without a prefix handler gives nothing and no move |
| ParserSpec.ParseIdentExpr | src/parser.rs:142-147 | an expression exists exactly when the current token is an identifier, and it is that identifier |
| ParserSpec.ParseIntExpr | src/parser.rs:150-155 | an expression exists exactly when the current token is an integer, and it is that integer literal |
| ParserSpec.ParsePrefixExpr | src/parser.rs:158-172 | the same guarantees as `ParseExpr`; a token that is not `!`, `+` or `-` gives nothing and no move |
| ParserSpec.ParseInfixExpr | src/parser.rs:175-194 | the same guarantees as `ParseExpr`, with the size bound (at most the drop in `Budget` plus one) counting the left operand; a token that is not an infix operator gives nothing and no move |
| ParserSpec.SkipToSemicolon | src/parser.rs:78-80 | when the loop ends, the current token is `;`, no diagnostic is added and the measure has not grown |
| ParserSpec.ParseLetStmt | src/parser.rs:56-83 | a `let` that returns adds no diagnostic or exactly the one for a missing `=`; every statement it yields is a `let` without string literals |
| ParserSpec.ParseReturnStmt | src/parser.rs:86-99 | a `return` that returns adds no diagnostic; every statement it yields is a `return` without string literals |
| ParserSpec.ParseExprStmt | src/parser.rs:109-117 | it adds at most one diagnostic and only after an expression; every statement it yields is an expression statement without string literals |
| ParserSpec.ParseStmt | src/parser.rs:47-53 | it adds at most one diagnostic; it can diverge only on `let` or `return`; what it yields is never `Blank` and holds no string literal |
| ParserSpec.ParseProgramFrom | src/parser.rs:32-44 | when it returns, the current token is `EOF`, and every statement is one the parser can produce |
| ParserSpec.Parse | src/parser.rs:13-44 | `Parser::new(Lexer::new(input)).parse_program()`: when it returns, it ends on `EOF` and every statement is a `let`, `return` or expression statement without a string literal; `ParsedProgramShape` adds that none is `Blank` |
| Parsing.Parser.constructor | src/parser.rs:13-25 | the window holds the lexer's first two tokens, with no diagnostic, as `Init` computes |
| Parsing.Parser.NextToken | src/parser.rs:27-30 | the new state is `Advance` of the old one |
| Parsing.Parser.ParseProgram | src/parser.rs:32-44 | it halts exactly when `ParseProgramFrom` returns, and then yields that program and final state; otherwise it stops in the exhausted state; the loop invariant carries the statements collected so far |
| Parsing.Parser.ParseStmt | src/parser.rs:47-53 | it halts exactly when `ParserSpec.ParseStmt` returns, and then yields its statement and state; otherwise it stops in the exhausted state |
| Parsing.Parser.ParseLetStmt | src/parser.rs:56-83 | it halts exactly when `ParserSpec.ParseLetStmt` returns, and then yields its statement and state; otherwise it stops in the exhausted state |
| Parsing.Parser.ParseReturnStmt | src/parser.rs:86-99 | it halts exactly when `ParserSpec.ParseReturnStmt` returns, and then yields its statement and state; otherwise it stops in the exhausted state |
| Parsing.Parser.SkipToSemicolon | src/parser.rs:78-80 | it finds `;` exactly when `ParserSpec.SkipToSemicolon` does, and then stops in the state it names; otherwise it stops in the exhausted state, from which the source's loop never leaves |
| Parsing.Parser.ParseIdent | src/parser.rs:101-106 | a name exists exactly when the current token is an identifier, and it carries that identifier's text |
| Parsing.Parser.ParseExprStmt | src/parser.rs:109-117 | the statement and the new state are those of `ParserSpec.ParseExprStmt` |
| Parsing.Parser.ParseExpr | src/parser.rs:120-139 | the expression and the new state are those of `ParserSpec.ParseExpr` for the given precedence |
| Parsing.Parser.ParseIdentExpr | src/parser.rs:142-147 | an expression exists exactly when the current token is an identifier, and it is that identifier |
| Parsing.Parser.ParseIntExpr | src/parser.rs:150-155 | an expression exists exactly when the current token is an integer, and it is that integer literal |
| Parsing.Parser.ParsePrefixExpr | src/parser.rs:158-172 | the expression and the new state are those of `ParserSpec.ParsePrefixExpr` |
| Parsing.Parser.ParseInfixExpr | src/parser.rs:175-194 | the expression and the new state are those of `ParserSpec.ParseInfixExpr` for the given left operand |
| Parsing.Parser.CurTokenIs | src/parser.rs:196-198 | true exactly when the current token equals the argument, payload included |
| Parsing.Parser.PeekTokenIs | src/parser.rs:200-202 | true exactly when the peek token equals the argument, payload included |
| Parsing.Parser.PeekTokenIsInfix | src/parser.rs:204-216 | true exactly for the eight infix operator tokens |
| Parsing.Parser.ConsumeToken | src/parser.rs:218-226 | the result and the new state are those of `ParserSpec.ConsumeToken` |
| Parsing.Parser.PeekError | src/parser.rs:228-234 | exactly one diagnostic, naming the expected and the found token, is appended, and the window is unchanged |
| LexerProperties.EofForever | src/lexer.rs:23-24 | from a cursor past the input, every one of any number of calls yields `EOF`; the source agrees only until `read_position` overflows (see `Lexing.Lexer` under "## Left out") |
| LexerProperties.NulByteIsEof | src/lexer.rs:74 | a NUL byte after the whitespace yields `EOF` and is stepped over |
| LexerProperties.WhitespaceSkipped | src/lexer.rs:43 | lexing from any cursor inside a whitespace run gives the same token and end as from its start |
| LexerProperties.TwoByteOperators | src/lexer.rs:46-63 | `==` gives `Equal` and `!=` gives `NotEqual`, consuming two bytes; a lone `=` or `!` gives `Assign` or `Bang`, consuming one |
| LexerProperties.LookupIdentMatchesTable | src/lexer.rs:109-121 | exactly the seven keyword texts map to their keyword tags; any other text is `Ident` of itself |
| LexerProperties.LookupIdentInjective | src/lexer.rs:109-121 | two texts that give the same token are the same text |
| LexerProperties.IdentifierToken | src/lexer.rs:93-121 | an identifier token is the maximal non-empty run of letters and `_` after the whitespace, looked up in the keyword table, and the cursor ends right after it |
| LexerProperties.NumberToken | src/lexer.rs:101-125 | a number token is the maximal non-empty digit run after the whitespace and carries its decimal value, and the cursor ends right after it |
| LexerProperties.IllegalByte | src/lexer.rs:75-88 | a byte that is no operator, delimiter, letter, digit or NUL gives `Illegal` and consumes exactly that byte |
| LexerProperties.PunctuationFromOneByte | src/lexer.rs:54-73 | each one-byte tag is produced if and only if its one byte is first after the whitespace, and then exactly that byte is consumed |
| LexerProperties.AssignFromOneByte | src/lexer.rs:46-53 | `Assign` is produced if and only if the byte is `=` and the byte after it is not `=` |
| LexerProperties.ShortInputFits | src/lexer.rs:124 | no input of at most 18 bytes holds a digit run beyond `i64`, so the `unwrap` cannot fail on it |
| LexerProperties.DecimalRoundTrip | src/lexer.rs:124 | reading back the decimal rendering of a natural number gives that number |
| ParserProperties.InitWindow | src/parser.rs:13-25 | after construction the window is the lexer's first two tokens, the lexer stands after the second, and there is no diagnostic |
| ParserProperties.WindowFollowsLexer | src/parser.rs:27-30 | after `k` advances the current token is the `k`-th of the window followed by the lexer's token stream, and no diagnostic is added |
| ParserProperties.ExhaustedForever | src/lexer.rs:23-29 | advancing the parser (`next_token`, src/parser.rs:27-30) from the exhausted state keeps it exhausted under any number of advances; the diagnostics are unchanged, and the cursor ends exactly that many bytes further on; the source agrees only until `read_position` overflows (see `Lexing.Lexer` under "## Left out") |
| ParserProperties.SkipDivergesIffNoSemicolon | src/parser.rs:78-80 | the skip loop diverges if and only if no number of advances makes `;` the current token |
| ParserProperties.SkipStopsOnFirstSemicolon | src/parser.rs:94-96 | when the skip loop ends, it has stopped after `k` advances on the first state whose current token is `;` |
| ParserProperties.ParseExprIgnoresPrecedence | src/parser.rs:120 | `parse_expr` gives the same result for any two precedences |
| ParserProperties.AtomAlone | src/parser.rs:129-131 | an identifier or integer with no infix operator after it is the whole expression, and the window does not move |
| ParserProperties.InfixNestsRight | src/parser.rs:133-139 | for `a op ...`, the right operand is the complete expression parsed two tokens on, from `Lowest` |
| ParserProperties.ChainNestsRight | src/parser.rs:175-194 | `a op1 b op2 c` yields `a op1 (b op2 c)` whatever the two operators |
| ParserProperties.PrefixSwallowsChain | src/parser.rs:158-172 | a prefix expression succeeds exactly when its operand, parsed from `Lowest` one token on, does, and then wraps that whole operand |
| ParserProperties.NoHandlerNoStatement | src/parser.rs:122-127 | a statement starting with a token that has no prefix handler yields nothing, no diagnostic, and no move |
| ParserProperties.LetWithoutIdent | src/parser.rs:57-60 | `let` not followed by an identifier yields nothing, without a diagnostic and without moving |
| ParserProperties.LetWithoutAssign | src/parser.rs:67-69 | `let name` followed by anything but `=` yields nothing and records exactly one diagnostic, expected `=` against the token found |
| ParserProperties.LetStatement | src/parser.rs:56-83 | `let name = e` yields `LetStmt(name, e)` in the state on the next `;`, and diverges if and only if no `;` ever follows |
| ParserProperties.ReturnStatement | src/parser.rs:86-99 | `return e` yields `ReturnStmt(e)` in the state on the next `;`, and diverges if and only if no `;` ever follows |
| ParserProperties.ExpressionStatement | src/parser.rs:109-117 | an expression statement steps onto a following `;` silently; without one it records one diagnostic and keeps the statement |
| ParserProperties.ParsedProgramShape | src/parser.rs:32-44 | a parsed program ends on `EOF`, and every statement is a `let`, `return` or expression statement without a string literal |
| Samples.PunctuationTokens | src/lexer.rs:46-74 | `=+(){},;` lexes to one tag per byte, the `;` leaves the cursor at the end of the input, and from there every one of any number of calls yields `EOF` |
| Samples.EqualTokens | src/lexer.rs:171 | `10 == 10;` lexes to `Int(10)`, `Equal`, `Int(10)`, `;`, `EOF`, at the byte positions stated |
| Samples.IntExpression | src/parser.rs:353-373 | `5;` parses to the one expression statement `5` with no diagnostic |
| Samples.IdentExpression | src/parser.rs:331-351 | `foobar;` parses to the one expression statement `foobar` with no diagnostic |
| Samples.MinusPrefix | src/parser.rs:385-391 | `-15;` parses to `Prefix(Minus, 15)` with no diagnostic |
| Samples.NotEqualInfix | src/parser.rs:468-475 | `5 != 5;` parses to `Infix(NotEqual, 5, 5)` with no diagnostic |
| Samples.LetBinding | src/parser.rs:256-293 | `let x = 5;` parses to `Let(x, 5)` with no diagnostic |
| Samples.ReturnValue | src/parser.rs:295-329 | `return 5;` parses to `Return(5)` with no diagnostic |
| Samples.LetWithoutName | src/parser.rs:56-60 | `let = 5;` parses to the expression statement `5` with no diagnostic |
| Samples.LetWithoutAssignment | src/parser.rs:62-69 | `let x 5;` records one diagnostic (`=` expected, `5` found) and parses to the expression statement `5` |
| Samples.ChainGroupsRight | src/parser.rs:175-194 | `1 * 2 + 3;` parses to `1 * (2 + 3)` |
| Samples.UnterminatedReturn | src/parser.rs:94-96 | on `return 5` with no `;` after it, the source never returns |

## Left out

- `src/main.rs`, the REPL over standard input and output, is not part of this model.
- `check_parser_errors` (`src/parser.rs:237-247`) prints to standard error and panics. It is test plumbing and is not modelled.
- Diagnostic text is not modelled. The `format!` with `Debug` output becomes the record `PeekError(expected, got)`; only the number and order of diagnostics are kept.
- The `unwrap` panic on a digit run beyond `i64` is not modelled. Every member that lexes requires `NumbersFit(input)`, which says every digit run fits; `ShortInputFits` shows that short inputs always meet it.
- LexerSpec.NumbersFit: covers the whole input, so it also excludes inputs the source handles without a panic, because the over-long digit run is never lexed. An example is `5;`, a NUL byte, `a`, a space, then a 20-digit number. The NUL byte gives `EOF` and `a` becomes the peek token in the same advance; the parser then stops on that `EOF`, so the 20-digit run is never lexed.
- Lexing.Lexer: `read_position` is a `usize` in the source, and its overflow is not modelled; the model's cursor is unbounded. Past the end of the input `read_char` still adds one on every call, so the cursor is bounded by the number of calls, not by the input's length (`ExhaustedForever` states this growth). The skip loops of `parse_let_stmt` and `parse_return_stmt` call it in exactly that state, so after about 2^64 calls (2^32 on a 32-bit target) `read_position` reaches `usize::MAX`. A debug build then panics on the overflow. A release build wraps it to 0 and lexes the input again from byte 0, where an earlier `;` can end a loop the model calls divergent. `Diverges`, the cleared method flags, `EofForever`, `ExhaustedForever` and `SkipDivergesIffNoSemicolon` therefore describe the source only below that many calls.
- UTF-8 is not modelled. The input is a sequence of bytes, each written as a `char`, and a multi-byte character's bytes count one by one. The `string` type also admits characters above 255, which no byte can be; none of the lexer's byte classes contains them, so such a character lexes as `Illegal`, as a non-ASCII byte does.
- Non-termination itself is not reproduced: a loop that the source never leaves becomes `Diverges` in the specification and a cleared flag in the methods.
- `Box` ownership is not modelled. Expression trees are immutable datatypes, which have no sharing.
- Samples.PunctuationTokens: the long `test_next_token` input (`src/lexer.rs:153-273`) is not worked through whole. `EqualTokens` works through its fragment `10 == 10;`. `PunctuationTokens` lexes an input of its own, `=+(){},;`, which holds the eight one-byte tags and does not occur in the test. The general lexer lemmas (`TwoByteOperators`, `IdentifierToken`, `NumberToken`, `PunctuationFromOneByte`, `WhitespaceSkipped`) cover the rest.
- Samples.LetBinding: works through only the first of the three statements of the `let` test. `LetStatement` covers any `let name = e;`, and `ProgramStep` chains statements.
- Samples.ReturnValue: works through only the first of the three statements of the `return` test. `ReturnStatement` covers any `return e;`.
- Samples.MinusPrefix: `!5;` is not worked through on its own; `PrefixSwallowsChain` covers it.
- Samples.NotEqualInfix: the seven `5 op 5;` inputs besides `5 != 5;` are not worked through on their own; `InfixNestsRight` and `AtomAlone` cover them.
- `Precedence` is modelled as a datatype only. The parser accepts it but never reads it (`ParseExprIgnoresPrecedence`).
- `Stmt::Blank` and `Literal::String` exist in the datatypes. The parser never builds them, which `ParsedProgramShape` states.
