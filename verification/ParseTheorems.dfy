/** What the parser promises about whole expressions: it inverts printing, and it finds
    the one tree of its input that respects the precedence table. */
module ParseTheorems {
  import opened Options
  import opened ExpressionSyntax
  import opened ShuntingYard
  import opened ExpressionGrammar
  import opened PrecedenceTrees
  import opened ParseProof

  // Token sequences are unambiguous.

  lemma FlatLayout(toks: seq<Token>, it: nat, f: Flat)
    requires f.Chain? && At(toks, it, Tokens(f))
    ensures |Tokens(f)| == |TokensAtom(f.a)| + 1 + |Tokens(f.rest)|
    ensures At(toks, it, TokensAtom(f.a)) && Stands(toks, it + |TokensAtom(f.a)|)
    ensures toks[it + |TokensAtom(f.a)|] == OperatorToken(f.op)
    ensures At(toks, it + |TokensAtom(f.a)| + 1, Tokens(f.rest))
  {
    var a := TokensAtom(f.a);
    Split(toks, it, a, [OperatorToken(f.op)] + Tokens(f.rest));
    Split(toks, it + |a|, [OperatorToken(f.op)], Tokens(f.rest));
    assert |a| > 0;
  }

  lemma FlatsLayout(toks: seq<Token>, it: nat, fs: Flats)
    requires fs.MoreFlats? && fs.tail.MoreFlats? && At(toks, it, TokensArgs(fs))
    ensures |TokensArgs(fs)| == |Tokens(fs.head)| + 1 + |TokensArgs(fs.tail)|
    ensures At(toks, it, Tokens(fs.head)) && toks[it + |Tokens(fs.head)|] == Comma
    ensures At(toks, it + |Tokens(fs.head)| + 1, TokensArgs(fs.tail))
  {
    var y, rest := Tokens(fs.head), TokensArgs(fs.tail);
    Split(toks, it, y, [Comma] + rest);
    Split(toks, it + |y|, [Comma], rest);
  }

  lemma CallLayout(toks: seq<Token>, it: nat, a: Atom)
    requires a.CallAtom? && At(toks, it, TokensAtom(a))
    ensures |TokensAtom(a)| == 2 + |TokensArgs(a.args)| + 1
    ensures toks[it] == Identifier(a.callee) && toks[it + 1] == ParenOpen
    ensures At(toks, it + 2, TokensArgs(a.args)) && toks[it + 2 + |TokensArgs(a.args)|] == ParenClose
  {
    var head := [Identifier(a.callee), ParenOpen];
    Split(toks, it, head, TokensArgs(a.args) + [ParenClose]);
    Split(toks, it + 2, TokensArgs(a.args), [ParenClose]);
    assert head[0] == toks[it] && head[1] == toks[it + 1];
  }

  lemma GroupLayout(toks: seq<Token>, it: nat, a: Atom)
    requires a.GroupAtom? && At(toks, it, TokensAtom(a))
    ensures |TokensAtom(a)| == |Tokens(a.inner)| + 2
    ensures toks[it] == ParenOpen && At(toks, it + 1, Tokens(a.inner))
    ensures toks[it + 1 + |Tokens(a.inner)|] == ParenClose
  {
    Split(toks, it, [ParenOpen], Tokens(a.inner) + [ParenClose]);
    Split(toks, it + 1, Tokens(a.inner), [ParenClose]);
    assert [ParenOpen][0] == toks[it];
  }

  lemma {:induction false} FlatStart(toks: seq<Token>, it: nat, f: Flat)
    requires At(toks, it, Tokens(f))
    ensures toks[it].Identifier? || toks[it].Literal? || toks[it].ParenOpen?
    ensures |Tokens(f)| > 0
  {
    var first := TokensAtom(f.a)[0];
    assert Tokens(f)[0] == first && Tokens(f)[0] == toks[it];
  }

  /** The sequence read from `it` ends here. */
  predicate Over(toks: seq<Token>, end: nat) {
    Stands(toks, end) && !toks[end].OperatorToken?
  }

  lemma {:induction false} FlatUnique(toks: seq<Token>, it: nat, f: Flat, g: Flat)
    requires At(toks, it, Tokens(f)) && Over(toks, it + |Tokens(f)|)
    requires At(toks, it, Tokens(g)) && Over(toks, it + |Tokens(g)|)
    ensures f == g
    decreases f, 1
  {
    if f.Chain? { FlatLayout(toks, it, f); }
    if g.Chain? { FlatLayout(toks, it, g); }
    AtomUnique(toks, it, f.a, g.a);
    if f.Chain? && g.Chain? {
      FlatUnique(toks, it + |TokensAtom(f.a)| + 1, f.rest, g.rest);
    }
  }

  lemma {:induction false} AtomUnique(toks: seq<Token>, it: nat, a: Atom, b: Atom)
    requires At(toks, it, TokensAtom(a)) && Stands(toks, it + |TokensAtom(a)|)
    requires At(toks, it, TokensAtom(b)) && Stands(toks, it + |TokensAtom(b)|)
    ensures a == b
    decreases a, 1
  {
    assert TokensAtom(a)[0] == toks[it] && TokensAtom(b)[0] == toks[it];
    if a.CallAtom? { CallLayout(toks, it, a); }
    if b.CallAtom? { CallLayout(toks, it, b); }
    if a.CallAtom? && b.CallAtom? {
      ArgsUnique(toks, it + 2, a.args, b.args);
    }
    if a.GroupAtom? && b.GroupAtom? {
      GroupLayout(toks, it, a);
      GroupLayout(toks, it, b);
      FlatUnique(toks, it + 1, a.inner, b.inner);
    }
  }

  lemma {:induction false} ArgsUnique(toks: seq<Token>, it: nat, fs: Flats, gs: Flats)
    requires At(toks, it, TokensArgs(fs)) && toks[it + |TokensArgs(fs)|] == ParenClose
    requires At(toks, it, TokensArgs(gs)) && toks[it + |TokensArgs(gs)|] == ParenClose
    ensures fs == gs
    decreases fs, 1
  {
    if fs.MoreFlats? { FlatsHead(toks, it, fs); }
    if gs.MoreFlats? { FlatsHead(toks, it, gs); }
    if fs.MoreFlats? && gs.MoreFlats? {
      FlatUnique(toks, it, fs.head, gs.head);
      if fs.tail.MoreFlats? && gs.tail.MoreFlats? {
        FlatsLayout(toks, it, fs);
        FlatsLayout(toks, it, gs);
        ArgsUnique(toks, it + |Tokens(fs.head)| + 1, fs.tail, gs.tail);
      }
    }
  }

  lemma FlatsHead(toks: seq<Token>, it: nat, fs: Flats)
    requires fs.MoreFlats? && At(toks, it, TokensArgs(fs)) && toks[it + |TokensArgs(fs)|] == ParenClose
    ensures At(toks, it, Tokens(fs.head)) && Over(toks, it + |Tokens(fs.head)|)
    ensures toks[it] != ParenClose
    ensures toks[it + |Tokens(fs.head)|] == if fs.tail.MoreFlats? then Comma else ParenClose
  {
    if fs.tail.MoreFlats? { FlatsLayout(toks, it, fs); }
    FlatStart(toks, it, fs.head);
  }

  /** A sequence is written in one way only. */
  lemma TokensInjective(f: Flat, g: Flat)
    requires Tokens(f) == Tokens(g)
    ensures f == g
  {
    var toks := Tokens(f) + [Semicolon];
    FlatStart(toks, 0, f);
    FlatUnique(toks, 0, f, g);
  }

  /** The tree built by climbing is the only one with these tokens that respects the
      precedence table, the associativity of each level, and the parentheses. */
  lemma OneTreeRespects(f: Flat, t: Tree)
    requires Infixes(f)
    ensures Respects(t) && Yield(t) == Tokens(f) <==> t == Climb(f)
  {
    ClimbRespects(f);
    if Respects(t) && Yield(t) == Tokens(f) {
      FlattenTokens(t);
      TokensInjective(Flatten(t), f);
      ClimbFlatten(t);
    }
  }

  /** On every sequence the parser returns that tree, and stops at the terminator. */
  lemma ParsesSequence(toks: seq<Token>, it: nat, f: Flat)
    requires EndsWithEof(toks) && Infixes(f) && At(toks, it, Tokens(f))
    requires IsTerminator(toks[it + |Tokens(f)|]) && Stands(toks, it + |Tokens(f)|)
    ensures ParseExpression(toks, it) == Parsed(Ast(Climb(f)), it + |Tokens(f)|)
    ensures InOrder(Ast(Climb(f))) == Ungrouped(f)
  {
    ClimbRespects(f);
    ParsesTo(toks, it, Climb(f));
    TreeInOrder(Climb(f));
    ClimbInOrder(f);
  }

  // Leaves and operators from left to right.

  /** The leaves and operators of an expression; a call is a leaf with its arguments. */
  function InOrder(e: Expr): seq<Token> {
    match e
    case Variable(name) => [Identifier(name)]
    case LiteralExpr(text) => [Literal(text)]
    case Binary(op, l, r) => InOrder(l) + ([OperatorToken(op)] + InOrder(r))
    case Assignment(op, l, r) => InOrder(l) + ([OperatorToken(op)] + InOrder(r))
    case Call(callee, args) => [Identifier(callee), ParenOpen] + (InOrderAll(args) + [ParenClose])
    case Unary(op, x) => [OperatorToken(op)] + InOrder(x)
    case EmptyExpr => []
  }

  function InOrderAll(es: seq<Expr>): seq<Token> {
    if es == [] then []
    else if |es| == 1 then InOrder(es[0])
    else InOrder(es[0]) + ([Comma] + InOrderAll(es[1..]))
  }

  /** The tokens of a sequence without its grouping parentheses. */
  function Ungrouped(f: Flat): seq<Token> {
    match f
    case One(a) => UngroupedAtom(a)
    case Chain(a, op, rest) => UngroupedAtom(a) + ([OperatorToken(op)] + Ungrouped(rest))
  }

  function UngroupedAtom(a: Atom): seq<Token> {
    match a
    case GroupAtom(inner) => Ungrouped(inner)
    case CallAtom(callee, args) => [Identifier(callee), ParenOpen] + (UngroupedAll(args) + [ParenClose])
    case _ => TokensAtom(a)
  }

  function UngroupedAll(fs: Flats): seq<Token> {
    if fs.NoFlats? then []
    else if fs.tail.NoFlats? then Ungrouped(fs.head)
    else Ungrouped(fs.head) + ([Comma] + UngroupedAll(fs.tail))
  }

  lemma {:induction false} JoinUngrouped(f: Flat, op: Operator, g: Flat)
    ensures Ungrouped(Join(f, op, g)) == Ungrouped(f) + ([OperatorToken(op)] + Ungrouped(g))
  {
    if f.Chain? { JoinUngrouped(f.rest, op, g); }
  }

  lemma {:induction false} TreeInOrder(t: Tree)
    ensures InOrder(Ast(t)) == Ungrouped(Flatten(t))
  {
    match t
    case Apply(callee, args) =>
      TreesInOrder(args);
      assert Ungrouped(Flatten(t)) == UngroupedAtom(CallAtom(callee, FlattenAll(args)));
    case Group(inner) =>
      TreeInOrder(inner);
      assert Ungrouped(Flatten(t)) == UngroupedAtom(GroupAtom(Flatten(inner)));
    case Infix(op, l, r) =>
      TreeInOrder(l);
      TreeInOrder(r);
      JoinUngrouped(Flatten(l), op, Flatten(r));
    case Name(name) => assert Ungrouped(Flatten(t)) == UngroupedAtom(NameAtom(name));
    case Lit(text) => assert Ungrouped(Flatten(t)) == UngroupedAtom(LitAtom(text));
  }

  lemma {:induction false} TreesInOrder(ts: Trees)
    ensures InOrderAll(Asts(ts)) == UngroupedAll(FlattenAll(ts))
  {
    if ts.MoreTrees? {
      TreeInOrder(ts.head);
      TreesInOrder(ts.tail);
      assert Asts(ts)[1..] == Asts(ts.tail);
    }
  }

  /** Climbing and flattening again gives the sequence. */
  lemma ClimbInOrder(f: Flat)
    requires Infixes(f)
    ensures Flatten(Climb(f)) == f
  {
    ClimbRespects(f);
    FlattenTokens(Climb(f));
    TokensInjective(Flatten(Climb(f)), f);
  }

  // Printing.

  /** Expressions that can be written with infix operators only; a subscript has brackets of its own. */
  predicate Printable(e: Expr) {
    match e
    case Variable(_) => true
    case LiteralExpr(_) => true
    case Binary(op, l, r) =>
      IsBinaryOperator(op) && op != Subscript && !IsAssignmentOperator(op) && Printable(l) && Printable(r)
    case Assignment(op, l, r) => IsAssignmentOperator(op) && Printable(l) && Printable(r)
    case Call(_, args) => forall i :: 0 <= i < |args| ==> Printable(args[i])
    case _ => false
  }

  predicate IsNode(e: Expr) {
    e.Binary? || e.Assignment?
  }

  /** The tree of e with parentheses only where the precedence table demands them. */
  function Parenthesize(e: Expr): (t: Tree)
    requires Printable(e)
    ensures t.Infix? == IsNode(e) && (t.Infix? ==> t.op == e.op)
  {
    match e
    case Variable(name) => Name(name)
    case LiteralExpr(text) => Lit(text)
    case Binary(op, l, r) => Infix(op, LeftOperand(op, Parenthesize(l)), RightOperand(op, Parenthesize(r)))
    case Assignment(op, l, r) => Infix(op, LeftOperand(op, Parenthesize(l)), RightOperand(op, Parenthesize(r)))
    case Call(callee, args) => Apply(callee, ParenthesizeAll(args))
  }

  function ParenthesizeAll(es: seq<Expr>): Trees
    requires forall i :: 0 <= i < |es| ==> Printable(es[i])
  {
    if es == [] then NoTrees else MoreTrees(Parenthesize(es[0]), ParenthesizeAll(es[1..]))
  }

  function LeftOperand(op: Operator, t: Tree): Tree {
    if t.Infix? && !LeftFits(op, t.op) then Group(t) else t
  }

  function RightOperand(op: Operator, t: Tree): Tree {
    if t.Infix? && !RightFits(op, t.op) then Group(t) else t
  }

  function Print(e: Expr): seq<Token>
    requires Printable(e)
  {
    Yield(Parenthesize(e))
  }

  lemma {:induction false} ParenthesizeRespects(e: Expr)
    requires Printable(e)
    ensures Respects(Parenthesize(e)) && Ast(Parenthesize(e)) == e
  {
    match e
    case Binary(_, l, r) =>
      ParenthesizeRespects(l);
      ParenthesizeRespects(r);
    case Assignment(_, l, r) =>
      ParenthesizeRespects(l);
      ParenthesizeRespects(r);
    case Call(_, args) => ParenthesizeAllRespect(args);
    case _ =>
  }

  lemma {:induction false} ParenthesizeAllRespect(es: seq<Expr>)
    requires forall i :: 0 <= i < |es| ==> Printable(es[i])
    ensures RespectAll(ParenthesizeAll(es)) && Asts(ParenthesizeAll(es)) == es
  {
    if es != [] {
      ParenthesizeRespects(es[0]);
      ParenthesizeAllRespect(es[1..]);
    }
  }

  /** Parsing undoes printing, wherever the printed tokens stand. */
  lemma ParseUndoesPrint(toks: seq<Token>, it: nat, e: Expr)
    requires EndsWithEof(toks) && Printable(e) && At(toks, it, Print(e))
    requires IsTerminator(toks[it + |Print(e)|]) && Stands(toks, it + |Print(e)|)
    ensures ParseExpression(toks, it) == Parsed(e, it + |Print(e)|)
  {
    ParenthesizeRespects(e);
    ParsesTo(toks, it, Parenthesize(e));
  }

  /** No other way of writing e that respects the precedence table is shorter. */
  lemma {:induction false} PrintIsShortest(e: Expr, t: Tree)
    requires Printable(e) && Respects(t) && Ast(t) == e
    ensures |Print(e)| <= |Yield(t)|
    ensures t.Infix? || !IsNode(e) || |Print(e)| + 2 <= |Yield(t)|
    decreases t
  {
    match t
    case Group(inner) => PrintIsShortest(e, inner);
    case Infix(_, l, r) =>
      PrintIsShortest(e.lhs, l);
      PrintIsShortest(e.rhs, r);
      assert |Yield(LeftOperand(e.op, Parenthesize(e.lhs)))| <= |Yield(l)|;
      assert |Yield(RightOperand(e.op, Parenthesize(e.rhs)))| <= |Yield(r)|;
    case Apply(_, args) => PrintArgsIsShortest(e.args, args);
    case _ =>
  }

  lemma {:induction false} PrintArgsIsShortest(es: seq<Expr>, ts: Trees)
    requires forall i :: 0 <= i < |es| ==> Printable(es[i])
    requires RespectAll(ts) && Asts(ts) == es
    ensures |YieldArgs(ParenthesizeAll(es))| <= |YieldArgs(ts)|
    decreases ts
  {
    if ts.MoreTrees? {
      PrintIsShortest(es[0], ts.head);
      PrintArgsIsShortest(es[1..], ts.tail);
    }
  }
}
