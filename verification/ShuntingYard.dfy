/** The expression parser as a function: a loop over the tokens with a stack of operators
    and a stack of operands (tops at the front), calling itself for call arguments. */
module ShuntingYard {
  import opened Options
  import opened ExpressionSyntax

  /** Undefined: the C++ would take the top of an empty stack or read past the tokens. */
  datatype Result =
    | Parsed(expr: Expr, next: nat)
    | Failed
    | Undefined

  datatype ArgsResult =
    | ParsedArgs(args: seq<Expr>, next: nat)
    | FailedArgs
    | UndefinedArgs

  datatype Stacks = Stacks(operators: seq<Operator>, operands: seq<Expr>)

  /** Makes a node of the top operator and the two top operands. */
  function Reduce(s: Stacks): Option<Stacks>
    requires s.operators != []
  {
    if |s.operands| < 2 then None
    else Some(Stacks(s.operators[1..], [Node(s.operators[0], s.operands[1], s.operands[0])] + s.operands[2..]))
  }

  /** Reduces until the top operator is one that op does not close. */
  function Flush(op: Operator, s: Stacks): Option<Stacks>
    decreases s.operators
  {
    if s.operators == [] || !Closes(op, s.operators[0]) then Some(s)
    else
      match Reduce(s)
      case None => None
      case Some(s1) => Flush(op, s1)
  }

  datatype Closing = Closed(s: Stacks) | NoOpening | Underflow

  /** On a closing parenthesis: reduces down to the marker of the opening one. */
  function CloseGroup(s: Stacks): Closing
    decreases s.operators
  {
    if s.operators == [] then NoOpening
    else if s.operators[0] == ParenMarker then Closed(s.(operators := s.operators[1..]))
    else
      match Reduce(s)
      case None => Underflow
      case Some(s1) => CloseGroup(s1)
  }

  /** Applies all operators that are left; None when one lacks an operand. */
  function ApplyAll(s: Stacks): Option<seq<Expr>>
    decreases s.operators
  {
    if s.operators == [] then Some(s.operands)
    else if IsUnaryOperator(s.operators[0]) then
      if s.operands == [] then None
      else ApplyAll(Stacks(s.operators[1..], [Unary(s.operators[0], s.operands[0])] + s.operands[1..]))
    else
      match Reduce(s)
      case None => None
      case Some(s1) => ApplyAll(s1)
  }

  /** The end of the expression, with the token at `it` left to the caller. */
  function Finish(s: Stacks, it: nat): (r: Result)
    ensures r.Parsed? ==> r.next == it
  {
    match ApplyAll(s)
    case None => Failed
    case Some(operands) => Parsed(if operands == [] then EmptyExpr else operands[0], it)
  }

  /** A token no expression contains ends it, unless an operator is waiting. */
  function Other(s: Stacks, it: nat): (r: Result)
    ensures r.Parsed? ==> r.next == it
  {
    if s.operators == [] then Finish(s, it) else Failed
  }

  /** The token list the lexer hands over ends with the end of the file. */
  predicate EndsWithEof(toks: seq<Token>) {
    toks != [] && toks[|toks| - 1] == EndOfFile
  }

  function Push(op: Operator, s: Stacks): Stacks {
    s.(operators := [op] + s.operators)
  }

  function PushOperand(e: Expr, s: Stacks): Stacks {
    s.(operands := [e] + s.operands)
  }

  /** Whether + and - are signs here: at the start, or right after an operator token. */
  predicate SignPosition(toks: seq<Token>, begin: nat, it: nat)
    requires begin <= it < |toks|
  {
    it == begin || TokenPrecedence(toks[it - 1]) >= 0
  }

  /** The loop's variables: position, both stacks, and the parentheses still open. */
  datatype Config = Config(it: nat, s: Stacks, parens: nat)

  datatype Move = Continue(c: Config) | Stop(r: Result)

  /** One round of the loop. */
  function Step(toks: seq<Token>, begin: nat, c: Config): (m: Move)
    requires EndsWithEof(toks) && begin <= c.it < |toks|
    ensures m.Continue? ==> c.it < m.c.it <= |toks|
    ensures m.Stop? && m.r.Parsed? ==> m.r.next == c.it
    decreases |toks| - c.it, 1
  {
    match toks[c.it]
    case ParenOpen => Continue(Config(c.it + 1, Push(ParenMarker, c.s), c.parens + 1))
    case ParenClose =>
      if c.parens == 0 then Stop(Finish(c.s, c.it)) else
      (match CloseGroup(c.s)
       case Closed(s) => Continue(Config(c.it + 1, s, c.parens - 1))
       case NoOpening => Stop(Failed)
       case Underflow => Stop(Undefined))
    case OperatorToken(op) =>
      if !IsBinaryOperator(op) then Stop(Other(c.s, c.it))
      else if SignPosition(toks, begin, c.it) && op == Add then Continue(Config(c.it + 1, Push(Plus, c.s), c.parens))
      else if SignPosition(toks, begin, c.it) && op == Sub then Continue(Config(c.it + 1, Push(Minus, c.s), c.parens))
      else
        (match Flush(op, c.s)
         case None => Stop(Undefined)
         case Some(s) => Continue(Config(c.it + 1, Push(op, s), c.parens)))
    case NotToken => Continue(Config(c.it + 1, Push(Not, c.s), c.parens))
    case Identifier(_) =>
      (match ParseIdentifier(toks, c.it)
       case Parsed(e, next) => Continue(Config(next, PushOperand(e, c.s), c.parens))
       case Failed => Stop(Failed)
       case Undefined => Stop(Undefined))
    case Semicolon => Stop(Finish(c.s, c.it))
    case BraceOpen => Stop(Finish(c.s, c.it))
    case SqrOpen => Stop(Finish(c.s, c.it))
    case Comma => Stop(Finish(c.s, c.it))
    case EndOfFile => Stop(Failed)
    case Literal(text) => Continue(Config(c.it + 1, PushOperand(LiteralExpr(text), c.s), c.parens))
    case _ => Stop(Other(c.s, c.it))
  }

  function Loop(toks: seq<Token>, begin: nat, c: Config): (r: Result)
    requires EndsWithEof(toks) && begin <= c.it <= |toks|
    ensures r.Parsed? ==> c.it <= r.next <= |toks|
    decreases |toks| - c.it, 2
  {
    if c.it == |toks| then Finish(c.s, c.it) else
    match Step(toks, begin, c)
    case Continue(c1) => Loop(toks, begin, c1)
    case Stop(r) => r
  }

  function Start(it: nat): Config {
    Config(it, Stacks([], []), 0)
  }

  function ParseExpression(toks: seq<Token>, it: nat): (r: Result)
    requires EndsWithEof(toks) && it <= |toks|
    ensures r.Parsed? ==> it <= r.next <= |toks|
    decreases |toks| - it, 3
  {
    Loop(toks, it, Start(it))
  }

  /** An identifier, a call of it, or a subscript of it. */
  function ParseIdentifier(toks: seq<Token>, it: nat): (r: Result)
    requires EndsWithEof(toks) && it < |toks| && toks[it].Identifier?
    ensures r.Parsed? ==> it < r.next <= |toks|
    decreases |toks| - it, 0
  {
    var name := toks[it].name;
    match toks[it + 1]
    case SqrOpen => ParseSubscript(toks, it + 1, name)
    case ParenOpen => ParseCall(toks, it + 1, name)
    case _ => Parsed(Variable(name), it + 1)
  }

  function ParseSubscript(toks: seq<Token>, it: nat, name: string): (r: Result)
    requires EndsWithEof(toks) && it < |toks| && toks[it] == SqrOpen
    ensures r.Parsed? ==> it < r.next <= |toks|
    decreases |toks| - it, 0
  {
    match ParseExpression(toks, it + 1)
    case Parsed(e, next) =>
      if next == |toks| then Undefined
      else if toks[next] != SqrClose then Failed
      else Parsed(Binary(Subscript, Variable(name), e), next + 1)
    case r => r
  }

  function ParseCall(toks: seq<Token>, it: nat, name: string): (r: Result)
    requires EndsWithEof(toks) && it < |toks| && toks[it] == ParenOpen
    ensures r.Parsed? ==> it < r.next <= |toks|
    decreases |toks| - it, 0
  {
    if toks[it + 1] == ParenClose then Parsed(Call(name, []), it + 2)
    else
      match ParseArgs(toks, it + 1, [])
      case ParsedArgs(args, next) => Parsed(Call(name, args), next)
      case FailedArgs => Failed
      case UndefinedArgs => Undefined
  }

  /** Arguments up to and including the closing parenthesis. At the end of the file the
      list just ends, and the position moves past it. */
  function ParseArgs(toks: seq<Token>, it: nat, args: seq<Expr>): (r: ArgsResult)
    requires EndsWithEof(toks) && it < |toks|
    ensures r.ParsedArgs? ==> it < r.next <= |toks|
    decreases |toks| - it, 4
  {
    if toks[it] == EndOfFile then ParsedArgs(args, it + 1) else
    match ParseExpression(toks, it)
    case Failed => FailedArgs
    case Undefined => UndefinedArgs
    case Parsed(e, next) =>
      if next == |toks| then UndefinedArgs
      else if toks[next] == ParenClose then ParsedArgs(args + [e], next + 1)
      else if toks[next] != Comma then FailedArgs
      else ParseArgs(toks, next + 1, args + [e])
  }
}
