/**
 * The N4 abstract syntax tree. Nodes own their children; the analyzer's
 * annotations are optional fields that the parser leaves empty.
 */
module Ast {
  import opened Wrappers
  import opened Tokens
  import opened Types

  datatype Expr =
    /** An identifier or number token; `dtype` is the resolved type name. */
    | Primary(tok: Token, dtype: Option<string>)
    | UnaryExpr(op: Token, operand: Expr)
    | BinExpr(left: Expr, op: Token, right: Expr)
    /** A call: arguments are raw tokens, not parsed expressions. */
    | FunctionCall(name: Token, args: seq<Token>, dtype: Option<string>)

  datatype Param = Param(ident: Token, ty: Type)

  datatype Body = Body(statements: seq<Stmt>)

  datatype Stmt =
    /** `ident : type = rhs`; `identType` is the type recorded on the identifier by a successful definition. */
    | Definition(ident: Token, rhs: Expr, ty: Type, identType: Option<string>)
    | Assignment(lhs: Expr, rhs: Expr)
    | IfStatement(condition: Expr, trueBody: Body, falseBody: Option<Body>)
    | WhileStatement(condition: Expr, body: Body)
    | ReturnStatement(expr: Expr)
    /** An expression used as a statement. */
    | ExprStatement(expr: Expr)
    /** A function definition (only at top level); `fnType` is recorded by a successful definition. */
    | FunctionDefinition(name: Token, params: seq<Param>, returnType: Type, body: Body, fnType: Option<string>)

  datatype Program = Program(contents: seq<Stmt>)

  /** A primary node as the parser builds it. */
  function MakePrimary(tok: Token): Expr {
    Primary(tok, None)
  }
}
