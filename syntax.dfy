/**
 * Tokens and syntax trees (Token.kt, Expr.kt, Stmt.kt). `Expr` holds every variant that
 * the parser builds or that a callable is created from, including those (Ternary,
 * Variable, Assign, AnonymousFunction) that Expr.kt itself does not declare.
 */
module Syntax {
  import opened Results
  import opened Numbers

  /** Token kinds. The kinds the scanner and the parser refer to, plus the remaining keywords. */
  datatype TokenType =
    | LeftParen | RightParen | LeftBrace | RightBrace
    | Comma | Dot | Minus | Plus | Semicolon | Slash | Star
    | QuestionMark | Colon
    | Bang | BangEqual | Equal | EqualEqual
    | Greater | GreaterEqual | Less | LessEqual
    | Identifier | StringLit | NumberLit
    | And | Break | Class | Else | False | Fun | For | If | Nil | Or
    | Print | Return | Super | This | True | Var | While
    | Eof

  /** A token's literal (`Any?` in the source): nil, a boolean, a number or a string. */
  datatype LiteralValue = NilValue | BoolValue(b: bool) | NumberValue(n: Number) | StringValue(s: string)

  datatype Token = Token(kind: TokenType, lexeme: string, literal: LiteralValue, line: int)

  datatype Expr =
    | Binary(left: Expr, operator: Token, right: Expr)
    | Grouping(expression: Expr)
    | Literal(literal: LiteralValue)
    | Unary(operator: Token, right: Expr)
    | Ternary(condition: Expr, ifTrue: Expr, ifFalse: Expr)
    | Variable(name: Token)
    | Assign(name: Token, value: Expr)
    | AnonymousFunction(params: seq<Token>, body: seq<Stmt>)

  datatype Stmt =
    | Block(statements: seq<Stmt>)
    | Expression(expression: Expr)
    | Function(name: Token, params: seq<Token>, body: seq<Stmt>)
    | If(condition: Expr, thenBranch: Stmt, elseBranch: Option<Stmt>)
    | Print(expression: Expr)
    | Var(name: Token, initializer: Option<Expr>)
    | While(condition: Expr, loopBody: Stmt)
    | Break(keyword: Token)
}
