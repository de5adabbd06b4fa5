/** Running the parser over the tokens of a tree rebuilds the tree. */
module ParseProof {
  import opened Options
  import opened ExpressionSyntax
  import opened ShuntingYard
  import opened ExpressionGrammar

  /** The tokens from `it` on begin with ys, and something follows them. */
  predicate At(toks: seq<Token>, it: nat, ys: seq<Token>) {
    it + |ys| < |toks| && forall k :: 0 <= k < |ys| ==> ys[k] == toks[it + k]
  }

  lemma Split(toks: seq<Token>, it: nat, a: seq<Token>, b: seq<Token>)
    requires At(toks, it, a + b)
    ensures forall k :: 0 <= k < |a| ==> a[k] == toks[it + k]
    ensures At(toks, it + |a|, b)
    ensures b != [] ==> At(toks, it, a) && toks[it + |a|] == b[0]
  {
    forall k | 0 <= k < |a| ensures a[k] == toks[it + k] { assert (a + b)[k] == a[k]; }
    forall k | 0 <= k < |b| ensures b[k] == toks[it + |a| + k] { assert (a + b)[|a| + k] == b[k]; }
  }

  /** The token at `end` does not turn a name before it into a call or a subscript. */
  predicate Stands(toks: seq<Token>, end: nat) {
    0 < end < |toks| && (toks[end - 1].Identifier? ==> !toks[end].ParenOpen? && !toks[end].SqrOpen?)
  }

  /** An operand has been read up to here. */
  predicate AfterOperand(toks: seq<Token>, end: nat) {
    0 < end < |toks| && (toks[end - 1].Identifier? || toks[end - 1].Literal? || toks[end - 1].ParenClose?)
  }

  lemma LayoutEnds(toks: seq<Token>, it: nat, t: Tree)
    requires At(toks, it, Yield(t))
    ensures |Yield(t)| > 0
    ensures toks[it].Identifier? || toks[it].Literal? || toks[it].ParenOpen?
    ensures AfterOperand(toks, it + |Yield(t)|)
  {
    YieldEnds(t);
    var y := Yield(t);
    assert y[0] == toks[it] && y[|y| - 1] == toks[it + |y| - 1];
  }

  lemma LayoutInfix(toks: seq<Token>, it: nat, t: Tree)
    requires t.Infix? && At(toks, it, Yield(t))
    ensures |Yield(t)| == |Yield(t.l)| + 1 + |Yield(t.r)|
    ensures At(toks, it, Yield(t.l)) && AfterOperand(toks, it + |Yield(t.l)|)
    ensures toks[it + |Yield(t.l)|] == OperatorToken(t.op)
    ensures At(toks, it + |Yield(t.l)| + 1, Yield(t.r))
  {
    var l, r := Yield(t.l), Yield(t.r);
    Split(toks, it, l, [OperatorToken(t.op)] + r);
    Split(toks, it + |l|, [OperatorToken(t.op)], r);
    LayoutEnds(toks, it, t.l);
  }

  lemma LayoutGroup(toks: seq<Token>, it: nat, t: Tree)
    requires t.Group? && At(toks, it, Yield(t))
    ensures |Yield(t)| == |Yield(t.inner)| + 2
    ensures toks[it] == ParenOpen && At(toks, it + 1, Yield(t.inner))
    ensures toks[it + 1 + |Yield(t.inner)|] == ParenClose
  {
    var inner := Yield(t.inner);
    Split(toks, it, [ParenOpen], inner + [ParenClose]);
    Split(toks, it + 1, inner, [ParenClose]);
    assert [ParenOpen][0] == toks[it];
  }

  lemma LayoutApply(toks: seq<Token>, it: nat, t: Tree)
    requires t.Apply? && At(toks, it, Yield(t))
    ensures |Yield(t)| == 2 + |YieldArgs(t.args)| + 1
    ensures toks[it] == Identifier(t.callee) && toks[it + 1] == ParenOpen
    ensures At(toks, it + 2, YieldArgs(t.args)) && toks[it + 2 + |YieldArgs(t.args)|] == ParenClose
  {
    var head := [Identifier(t.callee), ParenOpen];
    Split(toks, it, head, YieldArgs(t.args) + [ParenClose]);
    Split(toks, it + 2, YieldArgs(t.args), [ParenClose]);
    assert head[0] == toks[it] && head[1] == toks[it + 1];
  }

  /** Several arguments: the first one, a comma, and the others. */
  lemma LayoutArgs(toks: seq<Token>, it: nat, ts: Trees)
    requires ts.MoreTrees? && ts.tail.MoreTrees? && At(toks, it, YieldArgs(ts))
    ensures |YieldArgs(ts)| == |Yield(ts.head)| + 1 + |YieldArgs(ts.tail)|
    ensures At(toks, it, Yield(ts.head)) && toks[it + |Yield(ts.head)|] == Comma
    ensures At(toks, it + |Yield(ts.head)| + 1, YieldArgs(ts.tail))
  {
    var y, rest := Yield(ts.head), YieldArgs(ts.tail);
    Split(toks, it, y, [Comma] + rest);
    Split(toks, it + |y|, [Comma], rest);
  }

  /** The stacks after reading t: its right spine is still pending. */
  function Pending(t: Tree, s: Stacks): Stacks {
    match t
    case Infix(op, l, r) => Pending(r, Push(op, PushOperand(Ast(l), s)))
    case _ => PushOperand(Ast(t), s)
  }

  /** t may be read with this operator stack below it. */
  predicate Above(t: Tree, operators: seq<Operator>) {
    t.Infix? && operators != [] ==> !Closes(t.op, operators[0])
  }

  lemma ReducesToNode(op: Operator, l: Expr, r: Expr, s: Stacks)
    ensures Reduce(PushOperand(r, Push(op, PushOperand(l, s)))) == Some(PushOperand(Node(op, l, r), s))
  {
    var s1 := PushOperand(r, Push(op, PushOperand(l, s)));
    assert s1.operators[1..] == s.operators;
    assert s1.operands[2..] == s.operands;
  }

  lemma {:induction false} FlushPending(op: Operator, t: Tree, s: Stacks)
    requires Respects(t) && IsBinaryOperator(op)
    requires t.Infix? ==> Closes(op, t.op)
    ensures Flush(op, Pending(t, s)) == Flush(op, PushOperand(Ast(t), s))
  {
    if t.Infix? {
      var s1 := Push(t.op, PushOperand(Ast(t.l), s));
      FlushPending(op, t.r, s1);
      ReducesToNode(t.op, Ast(t.l), Ast(t.r), s);
    }
  }

  lemma {:induction false} ClosePending(t: Tree, s: Stacks)
    requires Respects(t)
    ensures CloseGroup(Pending(t, s)) == CloseGroup(PushOperand(Ast(t), s))
  {
    if t.Infix? {
      var s1 := Push(t.op, PushOperand(Ast(t.l), s));
      ClosePending(t.r, s1);
      ReducesToNode(t.op, Ast(t.l), Ast(t.r), s);
    }
  }

  lemma {:induction false} ApplyPending(t: Tree, s: Stacks)
    requires Respects(t)
    ensures ApplyAll(Pending(t, s)) == ApplyAll(PushOperand(Ast(t), s))
  {
    if t.Infix? {
      var s1 := Push(t.op, PushOperand(Ast(t.l), s));
      ApplyPending(t.r, s1);
      ReducesToNode(t.op, Ast(t.l), Ast(t.r), s);
    }
  }

  /** Where the loop stands after reading t. */
  function Past(t: Tree, c: Config): Config {
    Config(c.it + |Yield(t)|, Pending(t, c.s), c.parens)
  }

  lemma {:induction false} RunTree(toks: seq<Token>, begin: nat, c: Config, t: Tree)
    requires EndsWithEof(toks) && begin <= c.it
    requires Respects(t) && At(toks, c.it, Yield(t)) && Stands(toks, c.it + |Yield(t)|)
    requires Above(t, c.s.operators)
    ensures Loop(toks, begin, c) == Loop(toks, begin, Past(t, c))
    decreases t, 3
  {
    match t
    case Name(_) => RunLeaf(toks, begin, c, t);
    case Lit(_) => RunLeaf(toks, begin, c, t);
    case Apply(_, _) => RunApply(toks, begin, c, t);
    case Group(_) => RunGroup(toks, begin, c, t);
    case Infix(_, _, _) => RunInfix(toks, begin, c, t);
  }

  lemma RunLeaf(toks: seq<Token>, begin: nat, c: Config, t: Tree)
    requires EndsWithEof(toks) && begin <= c.it
    requires (t.Name? || t.Lit?) && At(toks, c.it, Yield(t)) && Stands(toks, c.it + 1)
    ensures Loop(toks, begin, c) == Loop(toks, begin, Past(t, c))
  {
    assert Yield(t)[0] == toks[c.it];
    assert Step(toks, begin, c) == Continue(Past(t, c));
  }

  /** A binary operator after an operand, on stacks where only l is pending above s. */
  lemma StepOperator(toks: seq<Token>, begin: nat, c: Config, op: Operator, l: Tree, s: Stacks)
    requires EndsWithEof(toks) && begin < c.it < |toks|
    requires toks[c.it] == OperatorToken(op) && IsBinaryOperator(op)
    requires AfterOperand(toks, c.it)
    requires Respects(l) && (l.Infix? ==> Closes(op, l.op))
    requires s.operators != [] ==> !Closes(op, s.operators[0])
    requires c.s == Pending(l, s)
    ensures Loop(toks, begin, c) == Loop(toks, begin, Config(c.it + 1, Push(op, PushOperand(Ast(l), s)), c.parens))
  {
    FlushPending(op, l, s);
    OneStep(toks, begin, c, Config(c.it + 1, Push(op, PushOperand(Ast(l), s)), c.parens));
  }

  lemma OneStep(toks: seq<Token>, begin: nat, c: Config, c1: Config)
    requires EndsWithEof(toks) && begin <= c.it < |toks|
    requires Step(toks, begin, c) == Continue(c1)
    ensures Loop(toks, begin, c) == Loop(toks, begin, c1)
  {
  }

  lemma {:induction false} RunGroup(toks: seq<Token>, begin: nat, c: Config, t: Tree)
    requires EndsWithEof(toks) && begin <= c.it
    requires t.Group? && Respects(t) && At(toks, c.it, Yield(t))
    ensures Loop(toks, begin, c) == Loop(toks, begin, Past(t, c))
    decreases t, 2
  {
    hide ParseIdentifier, Flush, ApplyAll;
    LayoutGroup(toks, c.it, t);
    LayoutEnds(toks, c.it + 1, t.inner);
    var c1 := Config(c.it + 1, Push(ParenMarker, c.s), c.parens + 1);
    assert Step(toks, begin, c) == Continue(c1);
    RunTree(toks, begin, c1, t.inner);
    var c2 := Past(t.inner, c1);
    ClosePending(t.inner, c1.s);
    var s3 := PushOperand(Ast(t.inner), c1.s);
    assert CloseGroup(s3) == Closed(PushOperand(Ast(t.inner), c.s));
    assert Step(toks, begin, c2) == Continue(Past(t, c));
  }

  /** Both operands of a node may be read where the node may. */
  lemma Operands(t: Tree, s: Stacks)
    requires t.Infix? && Respects(t) && Above(t, s.operators)
    ensures IsBinaryOperator(t.op) && Respects(t.l) && Respects(t.r)
    ensures t.l.Infix? ==> Closes(t.op, t.l.op)
    ensures s.operators != [] ==> !Closes(t.op, s.operators[0])
    ensures Above(t.l, s.operators)
    ensures Above(t.r, Push(t.op, PushOperand(Ast(t.l), s)).operators)
  {
  }

  /** Where the loop stands after the left operand and the operator of t. */
  function Half(t: Tree, c: Config): Config
    requires t.Infix?
  {
    Config(c.it + |Yield(t.l)| + 1, Push(t.op, PushOperand(Ast(t.l), c.s)), c.parens)
  }

  lemma {:induction false} RunInfix(toks: seq<Token>, begin: nat, c: Config, t: Tree)
    requires EndsWithEof(toks) && begin <= c.it
    requires t.Infix? && Respects(t) && At(toks, c.it, Yield(t)) && Stands(toks, c.it + |Yield(t)|)
    requires Above(t, c.s.operators)
    ensures Loop(toks, begin, c) == Loop(toks, begin, Past(t, c))
    decreases t, 2
  {
    LayoutInfix(toks, c.it, t);
    RunHalf(toks, begin, c, t);
    Operands(t, c.s);
    RunTree(toks, begin, Half(t, c), t.r);
  }

  lemma {:induction false} RunHalf(toks: seq<Token>, begin: nat, c: Config, t: Tree)
    requires EndsWithEof(toks) && begin <= c.it
    requires t.Infix? && Respects(t) && Above(t, c.s.operators)
    requires At(toks, c.it, Yield(t.l)) && AfterOperand(toks, c.it + |Yield(t.l)|)
    requires toks[c.it + |Yield(t.l)|] == OperatorToken(t.op)
    ensures Loop(toks, begin, c) == Loop(toks, begin, Half(t, c))
    decreases t, 1
  {
    Operands(t, c.s);
    RunTree(toks, begin, c, t.l);
    StepOperator(toks, begin, Past(t.l, c), t.op, t.l, c.s);
  }

  lemma {:induction false} RunApply(toks: seq<Token>, begin: nat, c: Config, t: Tree)
    requires EndsWithEof(toks) && begin <= c.it
    requires t.Apply? && Respects(t) && At(toks, c.it, Yield(t))
    ensures Loop(toks, begin, c) == Loop(toks, begin, Past(t, c))
    decreases t, 2
  {
    ParsesApply(toks, c.it, t);
    OneStep(toks, begin, c, Past(t, c));
  }

  lemma {:induction false} ParsesApply(toks: seq<Token>, it: nat, t: Tree)
    requires EndsWithEof(toks) && t.Apply? && Respects(t) && At(toks, it, Yield(t))
    ensures toks[it].Identifier? && ParseIdentifier(toks, it) == Parsed(Ast(t), it + |Yield(t)|)
    decreases t, 1
  {
    LayoutApply(toks, it, t);
    if t.args.MoreTrees? {
      ArgsStart(toks, it + 2, t.args);
      RunArgs(toks, it + 2, [], t.args);
      assert [] + Asts(t.args) == Asts(t.args);
    }
  }

  lemma ArgsStart(toks: seq<Token>, it: nat, ts: Trees)
    requires ts.MoreTrees? && At(toks, it, YieldArgs(ts))
    ensures toks[it] != ParenClose && toks[it] != EndOfFile
  {
    if ts.tail.MoreTrees? { LayoutArgs(toks, it, ts); }
    LayoutEnds(toks, it, ts.head);
  }

  lemma {:induction false} RunArgs(toks: seq<Token>, it: nat, acc: seq<Expr>, ts: Trees)
    requires EndsWithEof(toks) && ts.MoreTrees? && RespectAll(ts)
    requires At(toks, it, YieldArgs(ts)) && toks[it + |YieldArgs(ts)|] == ParenClose
    ensures ParseArgs(toks, it, acc) == ParsedArgs(acc + Asts(ts), it + |YieldArgs(ts)| + 1)
    decreases ts
  {
    hide ParseExpression, Yield, Ast, Respects;
    ArgsStart(toks, it, ts);
    if ts.tail.NoTrees? {
      LayoutEnds(toks, it, ts.head);
      ParsesTo(toks, it, ts.head);
    } else {
      LayoutArgs(toks, it, ts);
      LayoutEnds(toks, it, ts.head);
      ParsesTo(toks, it, ts.head);
      NextArgument(toks, it, acc, ts.head, it + |Yield(ts.head)|);
      RunArgs(toks, it + |Yield(ts.head)| + 1, acc + [Ast(ts.head)], ts.tail);
      assert acc + [Ast(ts.head)] + Asts(ts.tail) == acc + Asts(ts);
    }
  }

  lemma NextArgument(toks: seq<Token>, it: nat, acc: seq<Expr>, arg: Tree, next: nat)
    requires EndsWithEof(toks) && it <= next < |toks| && toks[it] != EndOfFile && toks[next] == Comma
    requires ParseExpression(toks, it) == Parsed(Ast(arg), next)
    ensures ParseArgs(toks, it, acc) == ParseArgs(toks, next + 1, acc + [Ast(arg)])
  {
  }

  /** What ends an expression for the loop. */
  predicate IsTerminator(t: Token) {
    t.Semicolon? || t.BraceOpen? || t.Comma? || t.ParenClose? || t.SqrOpen?
  }

  /** Parsing the tokens of a tree gives the tree and stops at the terminator. */
  lemma {:induction false} ParsesTo(toks: seq<Token>, it: nat, t: Tree)
    requires EndsWithEof(toks)
    requires Respects(t) && At(toks, it, Yield(t))
    requires IsTerminator(toks[it + |Yield(t)|]) && Stands(toks, it + |Yield(t)|)
    ensures ParseExpression(toks, it) == Parsed(Ast(t), it + |Yield(t)|)
    decreases t, 4
  {
    var c := Start(it);
    RunTree(toks, it, c, t);
    ApplyPending(t, c.s);
    assert PushOperand(Ast(t), c.s) == Stacks([], [Ast(t)]);
    var c1 := Past(t, c);
    assert Step(toks, it, c1) == Stop(Finish(c1.s, c1.it));
  }
}
