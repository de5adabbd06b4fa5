/** The levels of precedence as lists of operators, and how two operators in a row group. */
module PrecedenceLevels {
  import opened ExpressionSyntax
  import ExpressionGrammar
  import opened ShuntingYard
  import opened ParseProof
  import opened SignedGrammar
  import opened ParserLimits

  /** From the loosest to the tightest; the first level are the assignments. */
  function Level(i: nat): set<Operator> {
    match i
    case 0 => {SetTo, AddTo, SubTo, MulTo, DivTo, ModTo}
    case 1 => {Or}
    case 2 => {And}
    case 3 => {Eq, NotEq}
    case 4 => {Less, LessEq, Greater, GreatEq}
    case 5 => {Add, Sub}
    case 6 => {Mul, Div, Mod, Rem}
    case 7 => {As}
    case 8 => {Member, Subscript}
    case _ => {}
  }

  function Joined(op: Operator, lhs: Expr, rhs: Expr): Expr {
    if op in Level(0) then Assignment(op, lhs, rhs) else Binary(op, lhs, rhs)
  }

  lemma LowLevelPrecedence(op: Operator, i: nat)
    requires op in Level(i) && i <= 4
    ensures Precedence(op) == 10 * (i + 1)
  {
    match i
    case 0 =>
    case 1 =>
    case 2 =>
    case 3 =>
    case _ =>
  }

  lemma LevelPrecedence(op: Operator, i: nat)
    requires op in Level(i)
    ensures i <= 8 && Precedence(op) == 10 * (i + 1)
  {
    if i <= 4 {
      LowLevelPrecedence(op, i);
    } else {
      match i
      case 5 =>
      case 6 =>
      case 7 =>
      case _ =>
    }
  }

  /** An infix operator is in one level, and no other operator is in any. */
  lemma OneLevelEach(op: Operator)
    ensures IsBinaryOperator(op) <==> exists i :: op in Level(i)
    ensures forall i, j :: op in Level(i) && op in Level(j) ==> i == j
  {
    forall i, j | op in Level(i) && op in Level(j) ensures i == j && IsBinaryOperator(op) {
      LevelPrecedence(op, i);
      LevelPrecedence(op, j);
    }
    if IsBinaryOperator(op) { InSomeLevel(op); }
  }

  lemma InSomeLevel(op: Operator)
    requires IsBinaryOperator(op)
    ensures exists i :: op in Level(i)
  {
    if op in {SetTo, AddTo, SubTo, MulTo, DivTo, ModTo} { assert op in Level(0); }
    else if op == Or { assert op in Level(1); }
    else if op == And { assert op in Level(2); }
    else if op in {Eq, NotEq} { assert op in Level(3); }
    else if op in {Less, LessEq, Greater, GreatEq} { assert op in Level(4); }
    else if op in {Add, Sub} { assert op in Level(5); }
    else if op in {Mul, Div, Mod, Rem} { assert op in Level(6); }
    else if op == As { assert op in Level(7); }
    else { assert op in Level(8); }
  }

  lemma NodeIsJoined(op: Operator, lhs: Expr, rhs: Expr)
    ensures Node(op, lhs, rhs) == Joined(op, lhs, rhs)
    ensures IsRightAssociative(op) <==> op in Level(0)
  {
  }

  lemma AssignmentLevel(op: Operator, i: nat)
    requires op in Level(i)
    ensures IsRightAssociative(op) <==> i == 0
  {
    hide Precedence;
    LevelPrecedence(op, i);
    if IsRightAssociative(op) { LevelPrecedence(op, 0); }
  }

  lemma FitsByNumber(p: Operator, i: nat, q: Operator, j: nat)
    requires Precedence(p) == 10 * (i + 1) && Precedence(q) == 10 * (j + 1) && (IsRightAssociative(q) <==> j == 0)
    ensures ExpressionGrammar.LeftFits(q, p) <==> !(i < j || (i == 0 && j == 0))
  {
    hide Precedence, IsRightAssociative;
  }

  /** What comes next closes what came before unless it is tighter, or both are assignments. */
  lemma FitsByLevel(p: Operator, i: nat, q: Operator, j: nat)
    requires p in Level(i) && q in Level(j)
    ensures ExpressionGrammar.LeftFits(q, p) <==> !(i < j || (i == 0 && j == 0))
  {
    hide Level, Precedence, IsRightAssociative, ExpressionGrammar.LeftFits;
    LevelPrecedence(p, i);
    LevelPrecedence(q, j);
    AssignmentLevel(q, j);
    FitsByNumber(p, i, q, j);
  }

  function ThreeOperands(a: Operand, p: Operator, b: Operand, q: Operator, c: Operand): seq<Token> {
    TokensOperand(a) + ([OperatorToken(p)] + (TokensOperand(b) + ([OperatorToken(q)] + TokensOperand(c))))
  }

  lemma GroupsTwo(a: Operand, p: Operator, i: nat, b: Operand, q: Operator, j: nat, c: Operand)
    requires p in Level(i) && q in Level(j)
    ensures var (x, y, z) := (MeaningOperand(a), MeaningOperand(b), MeaningOperand(c));
      Meaning(Chain(a, p, Chain(b, q, Just(c)))) ==
        if i < j || (i == 0 && j == 0) then Joined(p, x, Joined(q, y, z)) else Joined(q, Joined(p, x, y), z)
  {
    hide Level, Joined, Node;
    var (x, y, z) := (MeaningOperand(a), MeaningOperand(b), MeaningOperand(c));
    FitsByLevel(p, i, q, j);
    NodeIsJoined(q, y, z);
    NodeIsJoined(p, x, Joined(q, y, z));
    NodeIsJoined(p, x, y);
    NodeIsJoined(q, Joined(p, x, y), z);
    InsertsTwo(p, x, q, y, z);
    assert Meaning(Chain(a, p, Chain(b, q, Just(c)))) == MeaningOn(Tip(x), p, Chain(b, q, Just(c)));
    assert MeaningOn(Tip(x), p, Chain(b, q, Just(c))) == MeaningOn(Insert(Tip(x), p, y), q, Just(c));
  }

  lemma InsertsTwo(p: Operator, x: Expr, q: Operator, y: Expr, z: Expr)
    ensures Whole(Insert(Insert(Tip(x), p, y), q, z)) ==
      if ExpressionGrammar.LeftFits(q, p) then Node(q, Node(p, x, y), z) else Node(p, x, Node(q, y, z))
  {
    var t := Link(x, p, Tip(y));
    assert Insert(Tip(x), p, y) == t && Whole(t) == Node(p, x, y);
    assert Insert(Tip(y), q, z) == Link(y, q, Tip(z));
    assert Whole(Link(y, q, Tip(z))) == Node(q, y, z);
  }

  lemma Spread(a: Operand, p: Operator, b: Operand, q: Operator, c: Operand)
    ensures Tokens(Chain(a, p, Chain(b, q, Just(c)))) == ThreeOperands(a, p, b, q, c)
  {
    assert Tokens(Just(c)) == TokensOperand(c);
    assert Tokens(Chain(b, q, Just(c))) == TokensOperand(b) + ([OperatorToken(q)] + TokensOperand(c));
  }

  /** a p b q c groups to the right exactly if q is tighter than p, or both are assignments. */
  lemma GroupingLaw(
    toks: seq<Token>, it: nat, a: Operand, p: Operator, i: nat, b: Operand, q: Operator, j: nat, c: Operand)
    requires p in Level(i) && q in Level(j) && WellFormedOperand(a) && WellFormedOperand(b) && WellFormedOperand(c)
    requires PlacedOperand(a) && PlacedOperand(b) && PlacedOperand(c)
    requires EndsWithEof(toks) && At(toks, it, ThreeOperands(a, p, b, q, c))
    requires var end := it + |ThreeOperands(a, p, b, q, c)|; IsTerminator(toks[end]) && Stands(toks, end)
    ensures var (x, y, z) := (MeaningOperand(a), MeaningOperand(b), MeaningOperand(c));
      ParseExpression(toks, it) == Parsed(
        if i < j || (i == 0 && j == 0) then Joined(p, x, Joined(q, y, z)) else Joined(q, Joined(p, x, y), z),
        it + |ThreeOperands(a, p, b, q, c)|)
  {
    hide Level, ParseExpression, Meaning, Tokens, ThreeOperands;
    var e := Chain(a, p, Chain(b, q, Just(c)));
    Spread(a, p, b, q, c);
    LevelPrecedence(p, i);
    LevelPrecedence(q, j);
    assert WellFormed(Just(c)) && Placed(Just(c));
    assert WellFormed(Chain(b, q, Just(c))) && Placed(Chain(b, q, Just(c)));
    ParsesSigned(toks, it, e);
    GroupsTwo(a, p, i, b, q, j, c);
  }
}
