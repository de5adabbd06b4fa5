/** The whole language of expressions: operands, infix and prefix operators, calls, grouping
    parentheses and subscripts; what an expression stands for, and where its prefix
    operators are taken for what they are. */
module SignedGrammar {
  import opened ExpressionSyntax
  import ExpressionGrammar
  import PrecedenceTrees

  datatype Phrase =
    | Just(a: Operand)
    | Chain(a: Operand, op: Operator, rest: Phrase)
    | Sign(sign: Operator, rest: Phrase)

  datatype Operand =
    | Name(name: string)
    | Lit(text: string)
    | CallOf(callee: string, args: Phrases)
    | Parens(inner: Phrase)
    | Index(base: string, index: Phrase)

  datatype Phrases = NoPhrases | MorePhrases(head: Phrase, tail: Phrases)

  /** Only operators of the table are used, and only prefix operators as signs. */
  predicate WellFormed(p: Phrase) {
    match p
    case Just(a) => WellFormedOperand(a)
    case Chain(a, op, rest) => WellFormedOperand(a) && IsBinaryOperator(op) && WellFormed(rest)
    case Sign(sign, rest) => IsUnaryOperator(sign) && WellFormed(rest)
  }

  predicate WellFormedOperand(a: Operand) {
    match a
    case CallOf(_, args) => WellFormedAll(args)
    case Parens(inner) => WellFormed(inner)
    case Index(_, index) => WellFormed(index)
    case _ => true
  }

  predicate WellFormedAll(ps: Phrases) {
    ps.NoPhrases? || (WellFormed(ps.head) && WellFormedAll(ps.tail))
  }

  /** The source has one token for a sign and for the infix operator. */
  function SignToken(sign: Operator): Token {
    match sign
    case Plus => OperatorToken(Add)
    case Minus => OperatorToken(Sub)
    case _ => NotToken
  }

  function Tokens(p: Phrase): seq<Token> {
    match p
    case Just(a) => TokensOperand(a)
    case Chain(a, op, rest) => TokensOperand(a) + ([OperatorToken(op)] + Tokens(rest))
    case Sign(sign, rest) => [SignToken(sign)] + Tokens(rest)
  }

  function TokensOperand(a: Operand): seq<Token> {
    match a
    case Name(name) => [Identifier(name)]
    case Lit(text) => [Literal(text)]
    case CallOf(callee, args) => [Identifier(callee), ParenOpen] + (TokensArgs(args) + [ParenClose])
    case Parens(inner) => [ParenOpen] + (Tokens(inner) + [ParenClose])
    case Index(base, index) => [Identifier(base), SqrOpen] + (Tokens(index) + [SqrClose])
  }

  function TokensArgs(ps: Phrases): seq<Token> {
    if ps.NoPhrases? then []
    else if ps.tail.NoPhrases? then Tokens(ps.head)
    else Tokens(ps.head) + ([Comma] + TokensArgs(ps.tail))
  }

  // Where prefix operators may stand.

  /** No prefix operator stands inside grouping parentheses, no + or - right behind `not`,
      and no operator at all between the brackets of a subscript. The arguments of a call
      are expressions of their own, wherever the call stands. */
  predicate Placed(p: Phrase, grouped: bool := false, afterNot: bool := false) {
    match p
    case Just(a) => PlacedOperand(a)
    case Chain(a, _, rest) => PlacedOperand(a) && Placed(rest, grouped)
    case Sign(sign, rest) => !grouped && (afterNot ==> sign == Not) && Placed(rest, grouped, sign == Not)
  }

  predicate PlacedOperand(a: Operand) {
    match a
    case CallOf(_, args) => PlacedAll(args)
    case Parens(inner) => Placed(inner, true)
    case Index(_, index) => index.Just? && PlacedOperand(index.a)
    case _ => true
  }

  predicate PlacedAll(ps: Phrases) {
    ps.NoPhrases? || (Placed(ps.head) && PlacedAll(ps.tail))
  }

  // What an expression stands for.

  /** A tree by its right spine: the left operands along it, and the rightmost leaf. */
  datatype Spine = Tip(e: Expr) | Link(lhs: Expr, op: Operator, below: Spine)

  function Whole(t: Spine): Expr {
    match t
    case Tip(e) => e
    case Link(lhs, op, below) => Node(op, lhs, Whole(below))
  }

  /** Adds an operator and its right operand at the right end of a tree. */
  function Insert(t: Spine, op: Operator, x: Expr): Spine {
    if t.Link? && !ExpressionGrammar.LeftFits(op, t.op) then Link(t.lhs, t.op, Insert(t.below, op, x))
    else Link(Whole(t), op, Tip(x))
  }

  /** Operands are taken from left to right, and a prefix operator takes the whole rest as
      its operand, whatever operators follow. */
  function Meaning(p: Phrase): Expr
    decreases p, 0
  {
    match p
    case Just(a) => MeaningOperand(a)
    case Chain(a, op, rest) => MeaningOn(Tip(MeaningOperand(a)), op, rest)
    case Sign(sign, rest) => Unary(sign, Meaning(rest))
  }

  function MeaningOn(t: Spine, op: Operator, p: Phrase): Expr
    decreases p, 0
  {
    match p
    case Just(a) => Whole(Insert(t, op, MeaningOperand(a)))
    case Chain(a, op1, rest) => MeaningOn(Insert(t, op, MeaningOperand(a)), op1, rest)
    case Sign(sign, rest) => Whole(Insert(t, op, Unary(sign, Meaning(rest))))
  }

  function MeaningOperand(a: Operand): Expr {
    match a
    case Name(name) => Variable(name)
    case Lit(text) => LiteralExpr(text)
    case CallOf(callee, args) => Call(callee, MeaningAll(args))
    case Parens(inner) => Meaning(inner)
    case Index(base, index) => Binary(Subscript, Variable(base), Meaning(index))
  }

  function MeaningAll(ps: Phrases): seq<Expr> {
    if ps.NoPhrases? then [] else [Meaning(ps.head)] + MeaningAll(ps.tail)
  }

  // Without prefix operators and subscripts this is the tree that respects the table.

  function Unsigned(f: PrecedenceTrees.Flat): Phrase {
    match f
    case One(a) => Just(UnsignedAtom(a))
    case Chain(a, op, rest) => Chain(UnsignedAtom(a), op, Unsigned(rest))
  }

  function UnsignedAtom(a: PrecedenceTrees.Atom): Operand {
    match a
    case NameAtom(name) => Name(name)
    case LitAtom(text) => Lit(text)
    case CallAtom(callee, args) => CallOf(callee, UnsignedAll(args))
    case GroupAtom(inner) => Parens(Unsigned(inner))
  }

  function UnsignedAll(fs: PrecedenceTrees.Flats): Phrases {
    if fs.NoFlats? then NoPhrases else MorePhrases(Unsigned(fs.head), UnsignedAll(fs.tail))
  }

  function SpineOf(t: ExpressionGrammar.Tree): Spine {
    if t.Infix? then Link(ExpressionGrammar.Ast(t.l), t.op, SpineOf(t.r)) else Tip(ExpressionGrammar.Ast(t))
  }

  lemma {:induction false} SpineWhole(t: ExpressionGrammar.Tree)
    ensures Whole(SpineOf(t)) == ExpressionGrammar.Ast(t)
  {
    if t.Infix? { SpineWhole(t.r); }
  }

  lemma {:induction false} SpineInsert(t: ExpressionGrammar.Tree, op: Operator, x: ExpressionGrammar.Tree)
    requires !x.Infix?
    ensures Insert(SpineOf(t), op, ExpressionGrammar.Ast(x)) == SpineOf(PrecedenceTrees.Insert(t, op, x))
  {
    SpineWhole(t);
    if t.Infix? { SpineInsert(t.r, op, x); }
  }

  lemma {:induction false} MeaningIsClimb(f: PrecedenceTrees.Flat)
    ensures Meaning(Unsigned(f)) == ExpressionGrammar.Ast(PrecedenceTrees.Climb(f))
    decreases f, 1
  {
    MeaningIsClimbAtom(f.a);
    if f.Chain? { MeaningIsClimbOn(PrecedenceTrees.ClimbAtom(f.a), f.op, f.rest); }
  }

  lemma {:induction false} MeaningIsClimbOn(t: ExpressionGrammar.Tree, op: Operator, f: PrecedenceTrees.Flat)
    ensures MeaningOn(SpineOf(t), op, Unsigned(f)) == ExpressionGrammar.Ast(PrecedenceTrees.ClimbOn(t, op, f))
    decreases f, 1
  {
    var x := PrecedenceTrees.ClimbAtom(f.a);
    MeaningIsClimbAtom(f.a);
    SpineInsert(t, op, x);
    if f.Chain? {
      MeaningIsClimbOn(PrecedenceTrees.Insert(t, op, x), f.op, f.rest);
    } else {
      SpineWhole(PrecedenceTrees.Insert(t, op, x));
    }
  }

  lemma {:induction false} MeaningIsClimbAtom(a: PrecedenceTrees.Atom)
    ensures MeaningOperand(UnsignedAtom(a)) == ExpressionGrammar.Ast(PrecedenceTrees.ClimbAtom(a))
    decreases a, 1
  {
    match a
    case CallAtom(_, args) => MeaningIsClimbAll(args);
    case GroupAtom(inner) => MeaningIsClimb(inner);
    case _ =>
  }

  lemma {:induction false} MeaningIsClimbAll(fs: PrecedenceTrees.Flats)
    ensures MeaningAll(UnsignedAll(fs)) == ExpressionGrammar.Asts(PrecedenceTrees.ClimbAll(fs))
  {
    if fs.MoreFlats? {
      MeaningIsClimb(fs.head);
      MeaningIsClimbAll(fs.tail);
    }
  }

  /** Sequences without prefix operators are placed, and keep their tokens and their tree. */
  lemma {:induction false} UnsignedPlaced(f: PrecedenceTrees.Flat, grouped: bool)
    ensures Placed(Unsigned(f), grouped) && Tokens(Unsigned(f)) == PrecedenceTrees.Tokens(f)
    ensures WellFormed(Unsigned(f)) == PrecedenceTrees.Infixes(f)
    decreases f, 1
  {
    UnsignedAtomPlaced(f.a);
    if f.Chain? { UnsignedPlaced(f.rest, grouped); }
  }

  lemma {:induction false} UnsignedAtomPlaced(a: PrecedenceTrees.Atom)
    ensures PlacedOperand(UnsignedAtom(a)) && TokensOperand(UnsignedAtom(a)) == PrecedenceTrees.TokensAtom(a)
    ensures WellFormedOperand(UnsignedAtom(a)) == PrecedenceTrees.InfixesAtom(a)
    decreases a, 1
  {
    match a
    case CallAtom(_, args) => UnsignedAllPlaced(args);
    case GroupAtom(inner) => UnsignedPlaced(inner, true);
    case _ =>
  }

  lemma {:induction false} UnsignedAllPlaced(fs: PrecedenceTrees.Flats)
    ensures PlacedAll(UnsignedAll(fs)) && TokensArgs(UnsignedAll(fs)) == PrecedenceTrees.TokensArgs(fs)
    ensures WellFormedAll(UnsignedAll(fs)) == PrecedenceTrees.InfixesAll(fs)
    decreases fs, 1
  {
    if fs.MoreFlats? {
      UnsignedPlaced(fs.head, false);
      UnsignedAllPlaced(fs.tail);
    }
  }
}
