/** Every sequence of operands and operators has exactly one tree that respects the
    precedence table. */
module PrecedenceTrees {
  import opened ExpressionSyntax
  import opened ExpressionGrammar

  /** Operands separated by operators, before any precedence is decided. */
  datatype Flat = One(a: Atom) | Chain(a: Atom, op: Operator, rest: Flat)

  datatype Atom =
    | NameAtom(name: string)
    | LitAtom(text: string)
    | CallAtom(callee: string, args: Flats)
    | GroupAtom(inner: Flat)

  datatype Flats = NoFlats | MoreFlats(head: Flat, tail: Flats)

  /** Only operators of the table are used. */
  predicate Infixes(f: Flat) {
    InfixesAtom(f.a) && (f.Chain? ==> IsBinaryOperator(f.op) && Infixes(f.rest))
  }

  predicate InfixesAtom(a: Atom) {
    match a
    case CallAtom(_, args) => InfixesAll(args)
    case GroupAtom(inner) => Infixes(inner)
    case _ => true
  }

  predicate InfixesAll(fs: Flats) {
    fs.NoFlats? || (Infixes(fs.head) && InfixesAll(fs.tail))
  }

  function Tokens(f: Flat): seq<Token> {
    match f
    case One(a) => TokensAtom(a)
    case Chain(a, op, rest) => TokensAtom(a) + ([OperatorToken(op)] + Tokens(rest))
  }

  function TokensAtom(a: Atom): seq<Token> {
    match a
    case NameAtom(name) => [Identifier(name)]
    case LitAtom(text) => [Literal(text)]
    case CallAtom(callee, args) => [Identifier(callee), ParenOpen] + (TokensArgs(args) + [ParenClose])
    case GroupAtom(inner) => [ParenOpen] + (Tokens(inner) + [ParenClose])
  }

  function TokensArgs(fs: Flats): seq<Token> {
    if fs.NoFlats? then []
    else if fs.tail.NoFlats? then Tokens(fs.head)
    else Tokens(fs.head) + ([Comma] + TokensArgs(fs.tail))
  }

  /** Adds an operator and its right operand at the right end of a tree. */
  function Insert(t: Tree, op: Operator, x: Tree): Tree {
    if t.Infix? && !LeftFits(op, t.op) then Infix(t.op, t.l, Insert(t.r, op, x)) else Infix(op, t, x)
  }

  /** The tree of a sequence, taking its operands from left to right. */
  function Climb(f: Flat): Tree
    decreases f, 0
  {
    match f
    case One(a) => ClimbAtom(a)
    case Chain(a, op, rest) => ClimbOn(ClimbAtom(a), op, rest)
  }

  function ClimbOn(t: Tree, op: Operator, f: Flat): Tree
    decreases f, 0
  {
    match f
    case One(a) => Insert(t, op, ClimbAtom(a))
    case Chain(a, op1, rest) => ClimbOn(Insert(t, op, ClimbAtom(a)), op1, rest)
  }

  function ClimbAtom(a: Atom): (t: Tree)
    ensures !t.Infix?
  {
    match a
    case NameAtom(name) => Name(name)
    case LitAtom(text) => Lit(text)
    case CallAtom(callee, args) => Apply(callee, ClimbAll(args))
    case GroupAtom(inner) => Group(Climb(inner))
  }

  function ClimbAll(fs: Flats): Trees {
    if fs.NoFlats? then NoTrees else MoreTrees(Climb(fs.head), ClimbAll(fs.tail))
  }

  /** An operator that takes nothing on its left from another one may stand to its right. */
  lemma FitsEither(op: Operator, top: Operator)
    ensures RightFits(top, op) <==> !LeftFits(op, top)
  {
  }

  lemma {:induction false} InsertRespects(t: Tree, op: Operator, x: Tree)
    requires Respects(t) && Respects(x) && !x.Infix? && IsBinaryOperator(op)
    ensures Respects(Insert(t, op, x))
  {
    hide LeftFits, RightFits;
    if t.Infix? && !LeftFits(op, t.op) {
      FitsEither(op, t.op);
      InsertRespects(t.r, op, x);
    }
  }

  lemma {:induction false} InsertYield(t: Tree, op: Operator, x: Tree)
    ensures Yield(Insert(t, op, x)) == Yield(t) + ([OperatorToken(op)] + Yield(x))
  {
    hide LeftFits;
    if t.Infix? && !LeftFits(op, t.op) { InsertYield(t.r, op, x); }
  }

  /** The tree respects the table and is written with the tokens of the sequence. */
  lemma {:induction false} ClimbRespects(f: Flat)
    requires Infixes(f)
    ensures Respects(Climb(f)) && Yield(Climb(f)) == Tokens(f)
    decreases f, 1
  {
    AtomRespects(f.a);
    if f.Chain? {
      ClimbOnRespects(ClimbAtom(f.a), f.op, f.rest);
    }
  }

  lemma {:induction false} ClimbOnRespects(t: Tree, op: Operator, f: Flat)
    requires Respects(t) && IsBinaryOperator(op) && Infixes(f)
    ensures Respects(ClimbOn(t, op, f))
    ensures Yield(ClimbOn(t, op, f)) == Yield(t) + ([OperatorToken(op)] + Tokens(f))
    decreases f, 1
  {
    hide Respects, Insert, Yield;
    AtomRespects(f.a);
    InsertRespects(t, op, ClimbAtom(f.a));
    InsertYield(t, op, ClimbAtom(f.a));
    if f.Chain? {
      ClimbOnRespects(Insert(t, op, ClimbAtom(f.a)), f.op, f.rest);
    }
  }

  lemma {:induction false} AtomRespects(a: Atom)
    requires InfixesAtom(a)
    ensures Respects(ClimbAtom(a)) && Yield(ClimbAtom(a)) == TokensAtom(a)
    decreases a, 1
  {
    match a
    case CallAtom(_, args) => AllRespect(args);
    case GroupAtom(inner) => ClimbRespects(inner);
    case _ =>
  }

  lemma {:induction false} AllRespect(fs: Flats)
    requires InfixesAll(fs)
    ensures RespectAll(ClimbAll(fs)) && YieldArgs(ClimbAll(fs)) == TokensArgs(fs)
  {
    if fs.MoreFlats? {
      ClimbRespects(fs.head);
      AllRespect(fs.tail);
    }
  }

  // The sequence of a tree, and back.

  function Flatten(t: Tree): Flat {
    match t
    case Name(name) => One(NameAtom(name))
    case Lit(text) => One(LitAtom(text))
    case Apply(callee, args) => One(CallAtom(callee, FlattenAll(args)))
    case Group(inner) => One(GroupAtom(Flatten(inner)))
    case Infix(op, l, r) => Join(Flatten(l), op, Flatten(r))
  }

  function FlattenAll(ts: Trees): Flats {
    if ts.NoTrees? then NoFlats else MoreFlats(Flatten(ts.head), FlattenAll(ts.tail))
  }

  function Join(f: Flat, op: Operator, g: Flat): Flat {
    match f
    case One(a) => Chain(a, op, g)
    case Chain(a, op1, rest) => Chain(a, op1, Join(rest, op, g))
  }

  lemma {:induction false} JoinTokens(f: Flat, op: Operator, g: Flat)
    ensures Tokens(Join(f, op, g)) == Tokens(f) + ([OperatorToken(op)] + Tokens(g))
  {
    if f.Chain? { JoinTokens(f.rest, op, g); }
  }

  lemma {:induction false} FlattenTokens(t: Tree)
    ensures Tokens(Flatten(t)) == Yield(t)
  {
    match t
    case Apply(_, args) => FlattenAllTokens(args);
    case Group(inner) => FlattenTokens(inner);
    case Infix(op, l, r) =>
      FlattenTokens(l);
      FlattenTokens(r);
      JoinTokens(Flatten(l), op, Flatten(r));
    case _ =>
  }

  lemma {:induction false} FlattenAllTokens(ts: Trees)
    ensures TokensArgs(FlattenAll(ts)) == YieldArgs(ts)
  {
    if ts.MoreTrees? {
      FlattenTokens(ts.head);
      FlattenAllTokens(ts.tail);
    }
  }

  lemma {:induction false} ClimbOnJoin(t: Tree, op: Operator, f: Flat, op1: Operator, g: Flat)
    ensures ClimbOn(t, op, Join(f, op1, g)) == ClimbOn(ClimbOn(t, op, f), op1, g)
    decreases f
  {
    if f.Chain? { ClimbOnJoin(Insert(t, op, ClimbAtom(f.a)), f.op, f.rest, op1, g); }
  }

  lemma {:induction false} ClimbJoin(f: Flat, op: Operator, g: Flat)
    ensures Climb(Join(f, op, g)) == ClimbOn(Climb(f), op, g)
  {
    if f.Chain? { ClimbOnJoin(ClimbAtom(f.a), f.op, f.rest, op, g); }
  }

  lemma FitsFurther(a: Operator, b: Operator, c: Operator)
    requires RightFits(a, b) && RightFits(b, c)
    ensures RightFits(a, c)
  {
  }

  lemma InsertBelow(t: Tree, op: Operator, x: Tree)
    requires t.Infix? && !LeftFits(op, t.op)
    ensures Insert(t, op, x) == Infix(t.op, t.l, Insert(t.r, op, x))
  {
  }

  lemma InsertAbove(t: Tree, op: Operator, x: Tree)
    requires t.Infix? ==> LeftFits(op, t.op)
    ensures Insert(t, op, x) == Infix(op, t, x)
  {
  }

  /** Two insertions in a row make one node when the second operator may stand right of the first. */
  lemma {:induction false} InsertTwice(t: Tree, op: Operator, l: Tree, op1: Operator, r: Tree)
    requires RightFits(op, op1) && (l.Infix? ==> LeftFits(op1, l.op))
    ensures Insert(Insert(t, op, l), op1, r) == Insert(t, op, Infix(op1, l, r))
  {
    hide LeftFits, RightFits, Insert;
    if t.Infix? && !LeftFits(op, t.op) {
      FitsEither(op, t.op);
      FitsFurther(t.op, op, op1);
      FitsEither(op1, t.op);
      InsertTwice(t.r, op, l, op1, r);
      InsertBelow(t, op, l);
      InsertBelow(Insert(t, op, l), op1, r);
      InsertBelow(t, op, Infix(op1, l, r));
    } else {
      FitsEither(op1, op);
      InsertAbove(t, op, l);
      InsertBelow(Infix(op, t, l), op1, r);
      InsertAbove(l, op1, r);
      InsertAbove(t, op, Infix(op1, l, r));
    }
  }

  lemma {:induction false} ClimbOnTree(t: Tree, op: Operator, r: Tree)
    requires Respects(r) && (r.Infix? ==> RightFits(op, r.op))
    ensures ClimbOn(t, op, Flatten(r)) == Insert(t, op, r)
    decreases r, 1
  {
    if r.Infix? {
      ClimbOnJoin(t, op, Flatten(r.l), r.op, Flatten(r.r));
      ClimbOnTree(t, op, r.l);
      ClimbOnTree(Insert(t, op, r.l), r.op, r.r);
      InsertTwice(t, op, r.l, r.op, r.r);
    } else {
      ClimbFlatten(r);
    }
  }

  lemma {:induction false} ClimbFlatten(t: Tree)
    requires Respects(t)
    ensures Climb(Flatten(t)) == t
    decreases t, 0
  {
    match t
    case Apply(_, args) => ClimbFlattenAll(args);
    case Group(inner) => ClimbFlatten(inner);
    case Infix(op, l, r) =>
      ClimbJoin(Flatten(l), op, Flatten(r));
      ClimbFlatten(l);
      ClimbOnTree(l, op, r);
    case _ =>
  }

  lemma {:induction false} ClimbFlattenAll(ts: Trees)
    requires RespectAll(ts)
    ensures ClimbAll(FlattenAll(ts)) == ts
  {
    if ts.MoreTrees? {
      ClimbFlatten(ts.head);
      ClimbFlattenAll(ts.tail);
    }
  }
}
