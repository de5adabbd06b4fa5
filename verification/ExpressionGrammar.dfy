/** The language of expressions without prefix operators, apart from any parser: trees
    that keep the grouping parentheses, what they look like as tokens, and when they
    follow the precedence table. */
module ExpressionGrammar {
  import opened ExpressionSyntax

  datatype Tree =
    | Name(name: string)
    | Lit(text: string)
    | Apply(callee: string, args: Trees)
    | Group(inner: Tree)
    | Infix(op: Operator, l: Tree, r: Tree)

  datatype Trees = NoTrees | MoreTrees(head: Tree, tail: Trees)

  /** May an operator stand, unparenthesised, as the left operand of op? */
  predicate LeftFits(op: Operator, child: Operator) {
    Precedence(op) < Precedence(child) || (Precedence(op) == Precedence(child) && !IsRightAssociative(op))
  }

  predicate RightFits(op: Operator, child: Operator) {
    Precedence(op) < Precedence(child) || (Precedence(op) == Precedence(child) && IsRightAssociative(op))
  }

  /** Precedence, associativity and parentheses are all respected. */
  predicate Respects(t: Tree) {
    match t
    case Apply(_, args) => RespectAll(args)
    case Group(inner) => Respects(inner)
    case Infix(op, l, r) =>
      IsBinaryOperator(op) && Respects(l) && Respects(r)
      && (l.Infix? ==> LeftFits(op, l.op))
      && (r.Infix? ==> RightFits(op, r.op))
    case _ => true
  }

  predicate RespectAll(ts: Trees) {
    ts.NoTrees? || (Respects(ts.head) && RespectAll(ts.tail))
  }

  /** The tree as source tokens. */
  function Yield(t: Tree): seq<Token> {
    match t
    case Name(name) => [Identifier(name)]
    case Lit(text) => [Literal(text)]
    case Apply(callee, args) => [Identifier(callee), ParenOpen] + (YieldArgs(args) + [ParenClose])
    case Group(inner) => [ParenOpen] + (Yield(inner) + [ParenClose])
    case Infix(op, l, r) => Yield(l) + ([OperatorToken(op)] + Yield(r))
  }

  function YieldArgs(ts: Trees): seq<Token> {
    if ts.NoTrees? then []
    else if ts.tail.NoTrees? then Yield(ts.head)
    else Yield(ts.head) + ([Comma] + YieldArgs(ts.tail))
  }

  /** The tree as the parser's nodes: grouping leaves no trace. */
  function Ast(t: Tree): Expr {
    match t
    case Name(name) => Variable(name)
    case Lit(text) => LiteralExpr(text)
    case Apply(callee, args) => Call(callee, Asts(args))
    case Group(inner) => Ast(inner)
    case Infix(op, l, r) => Node(op, Ast(l), Ast(r))
  }

  function Asts(ts: Trees): seq<Expr> {
    if ts.NoTrees? then [] else [Ast(ts.head)] + Asts(ts.tail)
  }

  lemma {:induction false} YieldEnds(t: Tree)
    ensures Yield(t) != []
    ensures var y := Yield(t)[0]; y.Identifier? || y.Literal? || y.ParenOpen?
    ensures var y := Yield(t)[|Yield(t)| - 1]; y.Identifier? || y.Literal? || y.ParenClose?
  {
    if t.Infix? {
      YieldEnds(t.l);
      YieldEnds(t.r);
    }
  }
}
