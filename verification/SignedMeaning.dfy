/** Where its prefix operators are placed, an expression is read as what it stands for. */
module SignedMeaning {
  import opened Options
  import opened ExpressionSyntax
  import opened ExpressionGrammar
  import opened ShuntingYard
  import opened ParseProof
  import SignedGrammar
  import opened SignedReading

  type Phrase = SignedGrammar.Phrase
  type Phrases = SignedGrammar.Phrases
  type Operand = SignedGrammar.Operand
  type Spine = SignedGrammar.Spine

  /** The stacks on which a tree lies by its spine. */
  function Lying(t: Spine, s: Stacks): Stacks {
    match t
    case Tip(e) => PushOperand(e, s)
    case Link(lhs, op, below) => Lying(below, Push(op, PushOperand(lhs, s)))
  }

  /** The operators along a spine follow the precedence table. */
  predicate Sound(t: Spine) {
    t.Link? ==> IsBinaryOperator(t.op) && Sound(t.below) && (t.below.Link? ==> RightFits(t.op, t.below.op))
  }

  lemma {:induction false} InsertSound(t: Spine, op: Operator, x: Expr)
    requires Sound(t) && IsBinaryOperator(op)
    ensures Sound(SignedGrammar.Insert(t, op, x))
  {
    if t.Link? && !LeftFits(op, t.op) { InsertSound(t.below, op, x); }
  }

  lemma {:induction false} FlushLying(op: Operator, t: Spine, s: Stacks)
    requires Sound(t) && IsBinaryOperator(op) && (t.Link? ==> Closes(op, t.op))
    ensures Flush(op, Lying(t, s)) == Flush(op, PushOperand(SignedGrammar.Whole(t), s))
    decreases t
  {
    if t.Link? {
      FlushLying(op, t.below, Push(t.op, PushOperand(t.lhs, s)));
      ReducesToNode(t.op, t.lhs, SignedGrammar.Whole(t.below), s);
    }
  }

  /** No operator would be reduced here by one that comes next. */
  predicate Shielded(op: Operator, s: Stacks) {
    s.operators != [] ==> !Closes(op, s.operators[0])
  }

  function Flushed(op: Operator, s: Stacks): Stacks {
    Flush(op, s).GetOr(s)
  }

  /** Flushing for an operator makes room in the tree for its right operand. */
  lemma {:induction false} FlushInserts(op: Operator, t: Spine, s: Stacks, x: Expr)
    requires Sound(t) && IsBinaryOperator(op) && Shielded(op, s)
    ensures Flush(op, Lying(t, s)) == Some(Flushed(op, Lying(t, s)))
    ensures PushOperand(x, Push(op, Flushed(op, Lying(t, s)))) == Lying(SignedGrammar.Insert(t, op, x), s)
    decreases t
  {
    hide Precedence, IsRightAssociative;
    if t.Link? && !LeftFits(op, t.op) {
      FlushInserts(op, t.below, Push(t.op, PushOperand(t.lhs, s)), x);
    } else {
      FlushLying(op, t, s);
    }
  }

  lemma {:induction false} CloseLying(t: Spine, s: Stacks)
    requires Sound(t)
    ensures CloseGroup(Lying(t, s)) == CloseGroup(PushOperand(SignedGrammar.Whole(t), s))
    decreases t
  {
    if t.Link? {
      CloseLying(t.below, Push(t.op, PushOperand(t.lhs, s)));
      ReducesToNode(t.op, t.lhs, SignedGrammar.Whole(t.below), s);
    }
  }

  lemma {:induction false} ApplyLying(t: Spine, s: Stacks)
    requires Sound(t)
    ensures ApplyAll(Lying(t, s)) == ApplyAll(PushOperand(SignedGrammar.Whole(t), s))
    decreases t
  {
    if t.Link? {
      ApplyLying(t.below, Push(t.op, PushOperand(t.lhs, s)));
      ReducesToNode(t.op, t.lhs, SignedGrammar.Whole(t.below), s);
    }
  }

  lemma ApplySign(sign: Operator, x: Expr, s: Stacks)
    requires IsUnaryOperator(sign)
    ensures ApplyAll(PushOperand(x, Push(sign, s))) == ApplyAll(PushOperand(Unary(sign, x), s))
  {
    var s1 := PushOperand(x, Push(sign, s));
    assert s1.operators[1..] == s.operators && s1.operands[1..] == s.operands;
  }

  /** In the end s1 comes to the same as the operand e on top of s. */
  predicate ComesTo(s1: Stacks, e: Expr, s: Stacks, grouped: bool) {
    if grouped then CloseGroup(s1) == CloseGroup(PushOperand(e, s)) else ApplyAll(s1) == ApplyAll(PushOperand(e, s))
  }

  predicate ReadsAs(o: Outcome<Stacks>, e: Expr, s: Stacks, grouped: bool) {
    o.Reached? && ComesTo(o.value, e, s, grouped)
  }

  lemma LyingComesTo(t: Spine, s: Stacks, grouped: bool)
    requires Sound(t)
    ensures ComesTo(Lying(t, s), SignedGrammar.Whole(t), s, grouped)
  {
    if grouped { CloseLying(t, s); } else { ApplyLying(t, s); }
  }

  lemma SignComesTo(s1: Stacks, sign: Operator, x: Expr, s: Stacks)
    requires IsUnaryOperator(sign) && ComesTo(s1, x, Push(sign, s), false)
    ensures ComesTo(s1, Unary(sign, x), s, false)
  {
    ApplySign(sign, x, s);
  }

  /** t lies on s as x does on s1. */
  predicate SameLying(x: Expr, s1: Stacks, t: Spine, s: Stacks) {
    Sound(t) && PushOperand(x, s1) == Lying(t, s)
  }

  lemma ComesToWhole(s2: Stacks, x: Expr, s1: Stacks, t: Spine, s: Stacks, grouped: bool)
    requires ComesTo(s2, x, s1, grouped) && SameLying(x, s1, t, s)
    ensures ComesTo(s2, SignedGrammar.Whole(t), s, grouped)
  {
    LyingComesTo(t, s, grouped);
  }

  /** Where an expression, or the operand of a prefix operator, begins. */
  predicate Fresh(s: Stacks) {
    s.operators != [] ==> s.operators[0] == ParenMarker || IsUnaryOperator(s.operators[0])
  }

  lemma {:induction false} ReadMeans(p: Phrase, s: Stacks, asSign: bool, grouped: bool)
    requires SignedGrammar.WellFormed(p) && SignedGrammar.Placed(p, grouped, !asSign) && Fresh(s)
    ensures ReadsAs(Read(p, s, asSign), SignedGrammar.Meaning(p), s, grouped)
    decreases p, 2
  {
    match p
    case Just(a) => OperandMeans(a, s);
    case Chain(a, op, rest) =>
      OperandMeans(a, s);
      ReadOnMeans(SignedGrammar.Tip(SignedGrammar.MeaningOperand(a)), op, rest, s, grouped);
    case Sign(sign, rest) => SignMeans(sign, rest, s);
  }

  lemma {:induction false} SignMeans(sign: Operator, rest: Phrase, s: Stacks)
    requires IsUnaryOperator(sign) && SignedGrammar.WellFormed(rest) && SignedGrammar.Placed(rest, false, sign == Not)
    ensures ReadsAs(Read(rest, Push(sign, s), sign != Not), Unary(sign, SignedGrammar.Meaning(rest)), s, false)
    decreases rest, 3
  {
    ReadMeans(rest, Push(sign, s), sign != Not, false);
    SignComesTo(Read(rest, Push(sign, s), sign != Not).value, sign, SignedGrammar.Meaning(rest), s);
  }

  /** The tree with x as the right operand of op, lying on s. */
  lemma Insertion(t: Spine, op: Operator, x: Expr, s: Stacks)
    requires Sound(t) && IsBinaryOperator(op) && Fresh(s)
    ensures FlushOutcome(op, Lying(t, s)) == Reached(Behind(op, t, s))
    ensures SameLying(x, Behind(op, t, s), SignedGrammar.Insert(t, op, x), s)
  {
    FlushInserts(op, t, s, x);
    InsertSound(t, op, x);
  }

  /** The stacks behind an operator. */
  function Behind(op: Operator, t: Spine, s: Stacks): Stacks {
    Push(op, Flushed(op, Lying(t, s)))
  }

  /** What follows an operator, with the tree so far on the stacks. */
  lemma {:induction false} ReadOnMeans(t: Spine, op: Operator, p: Phrase, s: Stacks, grouped: bool)
    requires Sound(t) && IsBinaryOperator(op) && Fresh(s)
    requires SignedGrammar.WellFormed(p) && SignedGrammar.Placed(p, grouped)
    ensures ReadsAs(ReadBehind(op, p, Lying(t, s)), SignedGrammar.MeaningOn(t, op, p), s, grouped)
    decreases p, 4
  {
    Insertion(t, op, EmptyExpr, s);
    var s1 := Behind(op, t, s);
    match p
    case Just(a) =>
      OperandMeans(a, s1);
      LastMeans(t, op, SignedGrammar.MeaningOperand(a), Read(p, s1, true), s, grouped);
    case Chain(a, op1, rest) =>
      OperandMeans(a, s1);
      Insertion(t, op, SignedGrammar.MeaningOperand(a), s);
      ReadOnMeans(SignedGrammar.Insert(t, op, SignedGrammar.MeaningOperand(a)), op1, rest, s, grouped);
    case Sign(sign, rest) =>
      SignMeans(sign, rest, s1);
      LastMeans(t, op, Unary(sign, SignedGrammar.Meaning(rest)), Read(p, s1, true), s, false);
  }

  lemma LastMeans(t: Spine, op: Operator, x: Expr, o: Outcome<Stacks>, s: Stacks, grouped: bool)
    requires Sound(t) && IsBinaryOperator(op) && Fresh(s) && ReadsAs(o, x, Behind(op, t, s), grouped)
    ensures ReadsAs(o, SignedGrammar.Whole(SignedGrammar.Insert(t, op, x)), s, grouped)
  {
    Insertion(t, op, x, s);
    ComesToWhole(o.value, x, Behind(op, t, s), SignedGrammar.Insert(t, op, x), s, grouped);
  }

  lemma {:induction false} OperandMeans(a: Operand, s: Stacks)
    requires SignedGrammar.WellFormedOperand(a) && SignedGrammar.PlacedOperand(a)
    ensures ReadOperand(a, s) == Reached(PushOperand(SignedGrammar.MeaningOperand(a), s))
    decreases a, 2
  {
    match a
    case Parens(inner) =>
      ReadMeans(inner, Push(ParenMarker, s), true, true);
      GroupMeans(inner, s);
    case CallOf(_, args) => AllMean(args);
    case Index(_, index) => IndexMeans(index);
    case _ =>
  }

  lemma {:induction false} IndexMeans(p: Phrase)
    requires p.Just? && SignedGrammar.WellFormed(p) && SignedGrammar.Placed(p)
    ensures EvaluateIndex(p) == Reached(SignedGrammar.Meaning(p))
    decreases p, 3
  {
    OperandMeans(p.a, Stacks([], []));
  }

  /** In a group nothing depends on whether signs are expected: there are none. */
  lemma GroupMeans(p: Phrase, s: Stacks)
    requires SignedGrammar.Placed(p, true)
    requires ReadsAs(Read(p, Push(ParenMarker, s), true), SignedGrammar.Meaning(p), Push(ParenMarker, s), true)
    ensures ReadOperand(SignedGrammar.Parens(p), s) == Reached(PushOperand(SignedGrammar.Meaning(p), s))
  {
    assert Read(p, Push(ParenMarker, s), true) == Read(p, Push(ParenMarker, s), false);
    var s1 := PushOperand(SignedGrammar.Meaning(p), Push(ParenMarker, s));
    assert s1.operators[1..] == s.operators;
  }

  lemma {:induction false} EvaluateMeans(p: Phrase)
    requires SignedGrammar.WellFormed(p) && SignedGrammar.Placed(p)
    ensures Evaluate(p) == Reached(SignedGrammar.Meaning(p))
    decreases p, 3
  {
    var s := Stacks([], []);
    ReadMeans(p, s, true, false);
    assert PushOperand(SignedGrammar.Meaning(p), s) == Stacks([], [SignedGrammar.Meaning(p)]);
  }

  lemma {:induction false} AllMean(ps: Phrases)
    requires SignedGrammar.WellFormedAll(ps) && SignedGrammar.PlacedAll(ps)
    ensures EvaluateAll(ps) == Reached(SignedGrammar.MeaningAll(ps))
    decreases ps
  {
    if ps.MorePhrases? {
      EvaluateMeans(ps.head);
      AllMean(ps.tail);
    }
  }
}
