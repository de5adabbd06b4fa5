/** What the parser makes of every expression, its prefix operators and subscripts included:
    when it succeeds, what the result is, and how it fails. */
module ParserLimits {
  import opened Options
  import opened ExpressionSyntax
  import opened ShuntingYard
  import opened ParseProof
  import opened SignedGrammar
  import opened SignedReading
  import opened SignedCounts
  import opened SignedMeaning
  import ExpressionGrammar
  import PrecedenceTrees

  /** An expression is parsed if and only if its prefix operators are placed, and then to what
      it stands for. */
  lemma ParsesSigned(toks: seq<Token>, it: nat, p: Phrase)
    requires EndsWithEof(toks) && WellFormed(p) && At(toks, it, Tokens(p))
    requires IsTerminator(toks[it + |Tokens(p)|]) && Stands(toks, it + |Tokens(p)|)
    ensures ParseExpression(toks, it).Parsed? <==> Placed(p)
    ensures Placed(p) ==> ParseExpression(toks, it) == Parsed(Meaning(p), it + |Tokens(p)|)
  {
    ParsesPhrase(toks, it, p);
    FateIff(p);
    if Placed(p) { EvaluateMeans(p); } else { Evaluates(p); }
  }

  /** When it is not parsed, the fate of the expression says whether an error is reported or the
      top of an empty stack is taken. */
  lemma FailsAsItsFate(toks: seq<Token>, it: nat, p: Phrase)
    requires EndsWithEof(toks) && WellFormed(p) && At(toks, it, Tokens(p))
    requires IsTerminator(toks[it + |Tokens(p)|]) && Stands(toks, it + |Tokens(p)|)
    ensures ParseExpression(toks, it) == Failed <==> Fate(p) == Some(Fails)
    ensures ParseExpression(toks, it) == Undefined <==> Fate(p) == Some(Overpops)
  {
    ParsesPhrase(toks, it, p);
    Evaluates(p);
  }

  /** A sign in a group: as first operand it overpops; behind an operator it is reported, unless
      the next operator closes that one. */
  lemma SignInGroup(a: Operand, sign: Operator, b: Operand, op: Operator, op1: Operator, c: Operand)
    requires IsUnaryOperator(sign) && IsBinaryOperator(op) && a.Name? && b.Name? && c.Name?
    ensures Fate(Just(SignedGroup(sign, b))) == Some(Overpops)
    ensures Fate(Chain(a, op, Just(SignedGroup(sign, b)))) == Some(Fails)
    ensures Fate(Chain(a, op, Chain(SignedGroup(sign, b), op1, Just(c)))) ==
      Some(if Closes(op1, op) then Overpops else Fails)
  {
    GroupFollows(sign, b, Trail([], 0));
    assert Follow(Just(SignedGroup(sign, b)), Trail([], 0), true) == Covered([], 1);
    SecondFollows(a, op, Just(SignedGroup(sign, b)));
    GroupFollows(sign, b, Trail([op], 0));
    SecondFollows(a, op, Chain(SignedGroup(sign, b), op1, Just(c)));
    ThirdFollows(SignedGroup(sign, b), op, op1, c);
  }

  /** ( sign b ) */
  function SignedGroup(sign: Operator, b: Operand): Operand {
    Parens(Sign(sign, Just(b)))
  }

  lemma GroupFollows(sign: Operator, b: Operand, t: Trail)
    requires IsUnaryOperator(sign) && b.Name?
    ensures FollowOperand(SignedGroup(sign, b), t) == Covered(t.ops, t.misplaced + 1)
  {
    var t1 := t.(ops := [ParenMarker] + t.ops);
    var t2 := BehindSign(sign, t1, false);
    assert ParenMarker in t1.ops && t2.misplaced == t.misplaced + 1;
    assert Follow(Just(b), t2, sign != Not) == Reached(t2);
    assert Follow(Sign(sign, Just(b)), t1, false) == Reached(t2);
  }

  lemma SecondFollows(a: Operand, op: Operator, rest: Phrase)
    requires a.Name?
    ensures Waiting([]) == 0 && (IsBinaryOperator(op) ==> Waiting([op]) == 1)
    ensures Follow(Chain(a, op, rest), Trail([], 0), true) == Follow(rest, Trail([op], 0), true)
  {
    assert FollowOperand(a, Trail([], 0)) == Reached(Trail([], 0));
    assert [op] + Staying(op, []) == [op];
  }

  lemma ThirdFollows(group: Operand, op: Operator, op1: Operator, c: Operand)
    requires c.Name? && IsBinaryOperator(op)
    requires FollowOperand(group, Trail([op], 0)) == Covered([op], 1)
    ensures var o := Follow(Chain(group, op1, Just(c)), Trail([op], 0), true);
      if Closes(op1, op) then o == Broken(Overpops) else o == Reached(Trail([op1, op], 1))
  {
    assert Waiting([op]) == 1 && Waiting([]) == 0;
    assert Staying(op1, [op]) == if Closes(op1, op) then [] else [op];
    var t := Trail([op1, op], 1);
    assert [op1] + [op] == [op1, op];
    assert Follow(Just(c), t, true) == Reached(t);
  }

  /** How each sign is written. */
  predicate IsSign(sign: Operator, token: Token) {
    (sign == Plus && token == OperatorToken(Add)) || (sign == Minus && token == OperatorToken(Sub))
    || (sign == Not && token == NotToken)
  }

  /** A sign in front of a sum is for the sum, not for its first operand. */
  lemma SignTakesTheSum(toks: seq<Token>, it: nat, sign: Operator, token: Token, f: PrecedenceTrees.Flat)
    requires EndsWithEof(toks) && PrecedenceTrees.Infixes(f)
    requires IsSign(sign, token)
    requires At(toks, it, [token] + PrecedenceTrees.Tokens(f))
    requires IsTerminator(toks[it + |PrecedenceTrees.Tokens(f)| + 1])
    requires Stands(toks, it + |PrecedenceTrees.Tokens(f)| + 1)
    ensures ParseExpression(toks, it) ==
      Parsed(Unary(sign, ExpressionGrammar.Ast(PrecedenceTrees.Climb(f))), it + |PrecedenceTrees.Tokens(f)| + 1)
  {
    UnsignedPlaced(f, false);
    MeaningIsClimb(f);
    assert Placed(Unsigned(f), false, true);
    ParsesSigned(toks, it, Sign(sign, Unsigned(f)));
  }

  /** A subscript is parsed if and only if a single placed operand stands between its brackets:
      the closing bracket does not end an expression with operators. */
  lemma SubscriptIff(toks: seq<Token>, it: nat, name: string, p: Phrase)
    requires EndsWithEof(toks) && WellFormed(p)
    requires At(toks, it, [Identifier(name), SqrOpen] + (Tokens(p) + [SqrClose]))
    ensures toks[it].Identifier?
    ensures ParseIdentifier(toks, it).Parsed? <==> p.Just? && Placed(p)
    ensures p.Just? && Placed(p) ==>
      ParseIdentifier(toks, it) == Parsed(Binary(Subscript, Variable(name), Meaning(p)), it + |Tokens(p)| + 3)
  {
    var a := Index(name, p);
    LayoutIndex(toks, it, a);
    ParsesIndex(toks, it, a);
    EvaluatesIndex(p);
    if p.Just? && Placed(p) { IndexMeans(p); }
    if FateIndex(p).None? { IndexPlaced(p); }
  }
}
