/**
 * The abstract syntax the parser builds.  Absent sub-expressions (the
 * Java `null`) are `None`.
 */
module Ast {
  import opened Wrappers
  import opened Tokens

  /** Expressions the parser can build: literals keep their token category and text. */
  datatype Expr =
    | Literal(kind: TokenType, text: string)
    | Variable(name: string)
    | Call(name: string, args: seq<Expr>)

  /** The comparison of an `if` or `while`; either side may be missing. */
  datatype Condition = Condition(left: Option<Expr>, op: string, right: Option<Expr>)

  /** One `case value ... ` block of a `switch`. */
  datatype CaseBlock = CaseBlock(value: Expr, body: seq<Stmt>)

  /** A `code name(params) ... endcode` declaration. */
  datatype FunctionDecl = FunctionDecl(name: string, params: seq<string>, body: seq<Stmt>)

  datatype Stmt =
    | Assign(name: string, rhs: Expr)
    | CallStmt(callee: string, args: seq<Expr>)
    | Declare(decl: FunctionDecl)
    | Global(globals: seq<string>)
    | Local(locals: seq<string>)
    | If(cond: Condition, thenBody: seq<Stmt>, elseBody: seq<Stmt>)
    | Switch(selector: Expr, cases: seq<CaseBlock>)
    | While(test: Condition, body: seq<Stmt>)
    | Return(value: Option<Expr>)
    | ExitCode
}
