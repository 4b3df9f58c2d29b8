/**
 * Abstract syntax (src/ast.rs). The operator sets are those the parser builds.
 * Constructors of `Expr`, `Stmt` and `Literal` carry an `Expr`/`Stmt`/`Lit`
 * suffix: unsuffixed they would share their names with `Token` constructors
 * (`Ident`, `Int`) and with one another (`Expr.Ident`, `Stmt.Let`), and every
 * use in a module that opens both would need qualifying. The structure is the
 * same as in the source.
 */
module Ast {
  import opened Tokens

  datatype Ident = Ident(name: string)

  datatype Prefix = Bang | Plus | Minus

  datatype Infix = Plus | Minus | Asterisk | Slash | Lt | Gt | Equal | NotEqual

  datatype Literal = IntLit(value: i64) | StringLit(text: string)

  /** A finite tree: each compound node owns its operands. */
  datatype Expr =
    | IdentExpr(id: Ident)
    | LiteralExpr(lit: Literal)
    | PrefixExpr(prefix: Prefix, operand: Expr)
    | InfixExpr(infix: Infix, left: Expr, right: Expr)

  datatype Stmt =
    | Blank
    | LetStmt(name: Ident, value: Expr)
    | ReturnStmt(value: Expr)
    | ExprStmt(expr: Expr)

  type BlockStmt = seq<Stmt>

  /** A program is its statements in source order. */
  type Program = BlockStmt

  /**
   * The seven binding strengths, weakest first. No ordering is derived in
   * the source and the parser never compares them.
   */
  datatype Precedence =
    | Lowest
    | Equals       // ==
    | LessGreater  // > or <
    | Sum          // +
    | Product      // *
    | Prefix       // -X or !X
    | Call         // myFunction(X)

  /** Number of nodes of an expression tree. */
  function Size(e: Expr): nat {
    match e
    case IdentExpr(_) => 1
    case LiteralExpr(_) => 1
    case PrefixExpr(_, x) => 1 + Size(x)
    case InfixExpr(_, x, y) => 1 + Size(x) + Size(y)
  }

  /** True when a string literal occurs somewhere in `e`. */
  predicate HasStringLit(e: Expr) {
    match e
    case IdentExpr(_) => false
    case LiteralExpr(lit) => lit.StringLit?
    case PrefixExpr(_, x) => HasStringLit(x)
    case InfixExpr(_, x, y) => HasStringLit(x) || HasStringLit(y)
  }

  /** The statement forms and literal forms that the parser produces. */
  predicate ParserShaped(st: Stmt) {
    match st
    case Blank => false
    case LetStmt(_, e) => !HasStringLit(e)
    case ReturnStmt(e) => !HasStringLit(e)
    case ExprStmt(e) => !HasStringLit(e)
  }
}
