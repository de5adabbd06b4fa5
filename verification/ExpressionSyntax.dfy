/** Tokens and expression trees of the parser, and its operator tables. */
module ExpressionSyntax {
  /** Operators as the parser's stack holds them, and the marker of an open parenthesis. */
  datatype Operator =
    // assignment operators
    | SetTo | AddTo | SubTo | MulTo | DivTo | ModTo
    // binary operators
    | Add | Sub | Mul | Div | Mod | Rem | And | Or
    | Eq | NotEq | Less | Greater | LessEq | GreatEq
    | Member | Subscript | As
    // prefix unary operators
    | Plus | Minus | Not
    | ParenMarker

  datatype Token =
    | Identifier(name: string)
    | Literal(text: string)
    | OperatorToken(op: Operator)  // an assignment or binary operator
    | NotToken
    | ParenOpen | ParenClose | SqrOpen | SqrClose | BraceOpen | Comma | Semicolon
    | OtherToken                   // any other keyword or punctuator
    | EndOfFile

  datatype Expr =
    | EmptyExpr
    | Variable(name: string)
    | LiteralExpr(text: string)
    | Binary(op: Operator, lhs: Expr, rhs: Expr)
    | Assignment(op: Operator, lhs: Expr, rhs: Expr)
    | Unary(op: Operator, operand: Expr)
    | Call(callee: string, args: seq<Expr>)

  /** Higher binds tighter; -1 is no binary operator at all. */
  function Precedence(op: Operator): int {
    match op
    case Subscript => 90
    case Member => 90
    case As => 80
    case Mul => 70
    case Div => 70
    case Mod => 70
    case Rem => 70
    case Add => 60
    case Sub => 60
    case Less => 50
    case LessEq => 50
    case Greater => 50
    case GreatEq => 50
    case Eq => 40
    case NotEq => 40
    case And => 30
    case Or => 20
    case SetTo => 10
    case AddTo => 10
    case SubTo => 10
    case MulTo => 10
    case DivTo => 10
    case ModTo => 10
    case _ => -1
  }

  predicate IsAssignmentOperator(op: Operator) {
    op in {SetTo, AddTo, SubTo, MulTo, DivTo, ModTo}
  }

  /** Assignments group to the right, every other operator to the left. */
  predicate IsRightAssociative(op: Operator) {
    IsAssignmentOperator(op)
  }

  predicate IsUnaryOperator(op: Operator) {
    op in {Plus, Minus, Not}
  }

  predicate IsBinaryOperator(op: Operator) {
    Precedence(op) >= 10
  }

  /** Precedence of a token taken as an operator. */
  function TokenPrecedence(t: Token): int {
    match t
    case OperatorToken(op) => Precedence(op)
    case _ => -1
  }

  predicate IsBinaryToken(t: Token) {
    TokenPrecedence(t) >= 10
  }

  /** The node for a binary or an assignment operator. */
  function Node(op: Operator, lhs: Expr, rhs: Expr): Expr {
    if IsAssignmentOperator(op) then Assignment(op, lhs, rhs) else Binary(op, lhs, rhs)
  }

  /** Whether op, coming next, makes the parser reduce `top` first. */
  predicate Closes(op: Operator, top: Operator) {
    Precedence(op) < Precedence(top)
    || (!IsRightAssociative(op) && Precedence(op) == Precedence(top))
  }
}
