/** When the parser goes wrong on prefix operators, and how: a count of operators that wait
    against signs that are misplaced. */
module SignedCounts {
  import opened Options
  import opened ExpressionSyntax
  import opened ShuntingYard
  import opened SignedGrammar
  import opened SignedReading

  // The operators alone, without operands.

  /** Which operators stay when op comes. */
  function Staying(op: Operator, ops: seq<Operator>): seq<Operator> {
    if ops == [] || !Closes(op, ops[0]) then ops else Staying(op, ops[1..])
  }

  /** How many operators will be given two operands: all, but the prefix operators that do
      not stand in a group. */
  function Waiting(ops: seq<Operator>): nat {
    if ops == [] then 0
    else Waiting(ops[1..]) + if ops[0] == ParenMarker || (IsUnaryOperator(ops[0]) && ParenMarker !in ops[1..]) then 0 else 1
  }

  /** The operators that are pending, and the number of misplaced signs so far. */
  datatype Trail = Trail(ops: seq<Operator>, misplaced: nat)

  /** As long as the pending operators are no fewer than the misplaced signs, the operands of
      the enclosing expression stand in for those the signs lack. */
  function Covered(ops: seq<Operator>, misplaced: nat): Outcome<Trail> {
    if Waiting(ops) >= misplaced then Reached(Trail(ops, misplaced)) else Broken(Overpops)
  }

  /** A sign is misplaced in a group, and where + and - are taken for infix operators. */
  function BehindSign(sign: Operator, t: Trail, asSign: bool): Trail {
    var taken := sign == Not || asSign;
    var lost := if ParenMarker in t.ops || !taken then 1 else 0;
    Trail([if taken then sign else InfixOf(sign)] + t.ops, t.misplaced + lost)
  }

  /** `asSign` says whether + and - are signs at the beginning of p. */
  function Follow(p: Phrase, t: Trail, asSign: bool): Outcome<Trail>
    decreases p, 1
  {
    match p
    case Just(a) => FollowOperand(a, t)
    case Chain(a, op, rest) =>
      (match FollowOperand(a, t)
       case Broken(f) => Broken(f)
       case Reached(t1) =>
         match Covered(Staying(op, t1.ops), t1.misplaced)
         case Broken(f) => Broken(f)
         case Reached(t2) => Follow(rest, t2.(ops := [op] + t2.ops), true))
    case Sign(sign, rest) => Follow(rest, BehindSign(sign, t, asSign), sign != Not)
  }

  function FollowOperand(a: Operand, t: Trail): Outcome<Trail>
    decreases a, 1
  {
    match a
    case Parens(inner) =>
      (match Follow(inner, t.(ops := [ParenMarker] + t.ops), false)
       case Broken(f) => Broken(f)
       case Reached(t1) => Covered(t.ops, t1.misplaced))
    case CallOf(_, args) => (match FateAll(args) case Some(f) => Broken(f) case None => Reached(t))
    case Index(_, index) => (match FateIndex(index) case Some(f) => Broken(f) case None => Reached(t))
    case _ => Reached(t)
  }

  /** What goes wrong with an expression, if anything does. */
  function Fate(p: Phrase): Option<Fault>
    decreases p, 2
  {
    match Follow(p, Trail([], 0), true)
    case Broken(f) => Some(f)
    case Reached(t) => if t.misplaced == 0 then None else Some(Fails)
  }

  function FateIndex(p: Phrase): Option<Fault>
    decreases p, 2
  {
    match Follow(p, Trail([], 0), true)
    case Broken(f) => Some(f)
    case Reached(t) => if t.ops == [] then None else Some(Fails)
  }

  function FateAll(ps: Phrases): Option<Fault> {
    if ps.NoPhrases? then None
    else match Fate(ps.head)
      case Some(f) => Some(f)
      case None => FateAll(ps.tail)
  }

  // A group leaves the operators below its marker alone.

  /** The operators below the innermost marker. */
  function Outside(ops: seq<Operator>): seq<Operator> {
    if ops == [] then []
    else if ops[0] == ParenMarker then ops[1..] else Outside(ops[1..])
  }

  predicate SameBase(ops: seq<Operator>, ops1: seq<Operator>) {
    (ParenMarker in ops <==> ParenMarker in ops1) && Outside(ops) == Outside(ops1)
  }

  lemma PushSameBase(op: Operator, ops: seq<Operator>)
    requires op != ParenMarker
    ensures SameBase([op] + ops, ops)
  {
    assert ([op] + ops)[1..] == ops;
  }

  lemma {:induction false} StayingSameBase(op: Operator, ops: seq<Operator>)
    requires IsBinaryOperator(op)
    ensures SameBase(Staying(op, ops), ops)
  {
    if ops != [] && Closes(op, ops[0]) {
      StayingSameBase(op, ops[1..]);
      assert ops == [ops[0]] + ops[1..];
    }
  }

  lemma {:induction false} FollowSameBase(p: Phrase, t: Trail, asSign: bool)
    requires WellFormed(p) && Follow(p, t, asSign).Reached?
    ensures SameBase(Follow(p, t, asSign).value.ops, t.ops)
    decreases p
  {
    match p
    case Just(a) =>
    case Chain(a, op, rest) =>
      var t1 := FollowOperand(a, t).value;
      var ops := Staying(op, t1.ops);
      StayingSameBase(op, t1.ops);
      PushSameBase(op, ops);
      FollowSameBase(rest, Trail([op] + ops, t1.misplaced), true);
    case Sign(sign, rest) =>
      PushSameBase(BehindSign(sign, t, asSign).ops[0], t.ops);
      FollowSameBase(rest, BehindSign(sign, t, asSign), sign != Not);
  }

  // The parser agrees with the count.

  /** Behind an operand there is one operand more than waiting operators and misplaced signs. */
  predicate Counts(s: Stacks, t: Trail) {
    s.operators == t.ops && s.operands != [] && |s.operands| + t.misplaced == Waiting(t.ops) + 1
  }

  /** Before one, none. */
  predicate CountsBefore(s: Stacks, t: Trail) {
    s.operators == t.ops && |s.operands| + t.misplaced == Waiting(t.ops)
  }

  predicate Agrees(r: Outcome<Stacks>, o: Outcome<Trail>) {
    match o
    case Broken(f) => r == Broken(f)
    case Reached(t) => r.Reached? && Counts(r.value, t)
  }

  /** One round of flushing or closing: it works as long as two operands are there. */
  lemma ReduceCounts(s: Stacks, t: Trail)
    requires Counts(s, t) && s.operators != [] && s.operators[0] != ParenMarker
    requires IsUnaryOperator(s.operators[0]) ==> ParenMarker in s.operators[1..]
    ensures Reduce(s).None? <==> Waiting(t.ops) == t.misplaced
    ensures Reduce(s).Some? ==> Counts(Reduce(s).value, t.(ops := t.ops[1..]))
    ensures Waiting(t.ops) == Waiting(t.ops[1..]) + 1
  {
  }

  lemma {:induction false} StayingFewer(op: Operator, ops: seq<Operator>)
    ensures Waiting(Staying(op, ops)) <= Waiting(ops)
  {
    if ops != [] && Closes(op, ops[0]) { StayingFewer(op, ops[1..]); }
  }

  lemma {:induction false} FlushCounts(op: Operator, s: Stacks, t: Trail)
    requires IsBinaryOperator(op) && Counts(s, t)
    ensures match Covered(Staying(op, t.ops), t.misplaced)
      case Broken(f) => Flush(op, s).None?
      case Reached(t1) => Flush(op, s).Some? && Counts(Flush(op, s).value, t1)
    decreases |s.operators|
  {
    if s.operators != [] && Closes(op, s.operators[0]) {
      ReduceCounts(s, t);
      if Reduce(s).None? {
        StayingFewer(op, t.ops[1..]);
      } else {
        FlushCounts(op, Reduce(s).value, t.(ops := t.ops[1..]));
      }
    }
  }

  lemma {:induction false} OutsideFewer(ops: seq<Operator>)
    ensures Waiting(Outside(ops)) <= Waiting(ops)
  {
    if ops != [] { OutsideFewer(ops[1..]); }
  }

  lemma {:induction false} CloseCounts(s: Stacks, t: Trail)
    requires Counts(s, t) && ParenMarker in t.ops
    ensures Agrees(CloseOutcome(s), Covered(Outside(t.ops), t.misplaced))
    decreases |s.operators|
  {
    if s.operators[0] != ParenMarker {
      assert ParenMarker in s.operators[1..];
      ReduceCounts(s, t);
      if Reduce(s).None? {
        OutsideFewer(t.ops[1..]);
      } else {
        CloseCounts(Reduce(s).value, t.(ops := t.ops[1..]));
      }
    }
  }

  /** Outside all groups the operators that are left can be applied if and only if no sign
      was misplaced. */
  lemma {:induction false} ApplyCounts(s: Stacks, t: Trail)
    requires Counts(s, t) && ParenMarker !in t.ops
    ensures ApplyAll(s).Some? <==> t.misplaced == 0
    decreases |s.operators|
  {
    if s.operators != [] {
      if IsUnaryOperator(s.operators[0]) {
        ApplyCounts(Stacks(s.operators[1..], [Unary(s.operators[0], s.operands[0])] + s.operands[1..]), t.(ops := t.ops[1..]));
      } else {
        ReduceCounts(s, t);
        if Reduce(s).Some? { ApplyCounts(Reduce(s).value, t.(ops := t.ops[1..])); }
      }
    }
  }

  /** Behind `not` and an opening parenthesis + and - are no signs. */
  predicate FirstHere(ops: seq<Operator>, asSign: bool) {
    asSign || (ops != [] && ops[0] in {ParenMarker, Not})
  }

  lemma {:induction false} ReadCounts(p: Phrase, s: Stacks, t: Trail, asSign: bool)
    requires WellFormed(p) && CountsBefore(s, t) && FirstHere(t.ops, asSign)
    ensures Agrees(Read(p, s, asSign), Follow(p, t, asSign))
    decreases p, 1
  {
    match p
    case Just(a) => OperandCounts(a, s, t);
    case Chain(a, op, rest) =>
      OperandCounts(a, s, t);
      if FollowOperand(a, t).Reached? {
        BehindCounts(op, rest, ReadOperand(a, s).value, FollowOperand(a, t).value);
      }
    case Sign(_, _) => SignCounts(p, s, t, asSign);
  }

  lemma InfixCounts(op: Operator, s: Stacks, t: Trail)
    requires IsBinaryOperator(op) && Counts(s, t)
    ensures CountsBefore(Push(op, s), t.(ops := [op] + t.ops))
  {
    assert ([op] + t.ops)[1..] == t.ops;
  }

  lemma {:induction false} BehindCounts(op: Operator, rest: Phrase, s: Stacks, t: Trail)
    requires IsBinaryOperator(op) && WellFormed(rest) && Counts(s, t)
    ensures Agrees(ReadBehind(op, rest, s), match Covered(Staying(op, t.ops), t.misplaced)
      case Broken(f) => Broken(f)
      case Reached(t1) => Follow(rest, t1.(ops := [op] + t1.ops), true))
    decreases rest, 2
  {
    hide Waiting, Precedence;
    FlushCounts(op, s, t);
    if Flush(op, s).Some? {
      var s1, t1 := Flush(op, s).value, t.(ops := Staying(op, t.ops));
      InfixCounts(op, s1, t1);
      ReadCounts(rest, Push(op, s1), t1.(ops := [op] + t1.ops), true);
    }
  }

  lemma {:induction false} SignCounts(p: Phrase, s: Stacks, t: Trail, asSign: bool)
    requires p.Sign? && WellFormed(p) && CountsBefore(s, t) && FirstHere(t.ops, asSign)
    ensures Agrees(Read(p, s, asSign), Follow(p, t, asSign))
    decreases p, 0
  {
    var t1 := BehindSign(p.sign, t, asSign);
    var s1 := Push(t1.ops[0], s);
    PushCounts(p.sign, s, t, asSign);
    ReadCounts(p.rest, s1, t1, p.sign != Not);
    ReadSign(p, s, asSign);
  }

  lemma PushCounts(sign: Operator, s: Stacks, t: Trail, asSign: bool)
    requires IsUnaryOperator(sign) && CountsBefore(s, t)
    ensures var t1 := BehindSign(sign, t, asSign); CountsBefore(Push(t1.ops[0], s), t1)
  {
    assert BehindSign(sign, t, asSign).ops[1..] == t.ops;
  }

  /** A sign is put on the operators whether it is taken for one or not. */
  lemma ReadSign(p: Phrase, s: Stacks, asSign: bool)
    requires p.Sign? && WellFormed(p) && FirstHere(s.operators, asSign)
    ensures var op := if p.sign == Not || asSign then p.sign else InfixOf(p.sign);
      Read(p, s, asSign) == Read(p.rest, Push(op, s), p.sign != Not)
  {
  }

  lemma {:induction false} OperandCounts(a: Operand, s: Stacks, t: Trail)
    requires WellFormedOperand(a) && CountsBefore(s, t)
    ensures Agrees(ReadOperand(a, s), FollowOperand(a, t))
    decreases a, 1
  {
    match a
    case Parens(inner) =>
      var t1 := t.(ops := [ParenMarker] + t.ops);
      assert t1.ops[1..] == t.ops;
      ReadCounts(inner, Push(ParenMarker, s), t1, false);
      if Follow(inner, t1, false).Reached? {
        FollowSameBase(inner, t1, false);
        CloseCounts(Read(inner, Push(ParenMarker, s), false).value, Follow(inner, t1, false).value);
      }
    case CallOf(_, args) => EvaluatesAll(args);
    case Index(_, index) => EvaluatesIndex(index);
    case _ =>
  }

  /** An expression has a value or its fate. */
  predicate Meets<T>(o: Outcome<T>, fate: Option<Fault>) {
    match fate
    case None => o.Reached?
    case Some(f) => o == Broken(f)
  }

  lemma {:induction false} Evaluates(p: Phrase)
    requires WellFormed(p)
    ensures Meets(Evaluate(p), Fate(p))
    decreases p, 2
  {
    var s, t := Stacks([], []), Trail([], 0);
    ReadCounts(p, s, t, true);
    if Follow(p, t, true).Reached? {
      FollowSameBase(p, t, true);
      ApplyCounts(Read(p, s, true).value, Follow(p, t, true).value);
    }
  }

  lemma {:induction false} EvaluatesIndex(p: Phrase)
    requires WellFormed(p)
    ensures Meets(EvaluateIndex(p), FateIndex(p))
    decreases p, 2
  {
    ReadCounts(p, Stacks([], []), Trail([], 0), true);
  }

  lemma {:induction false} EvaluatesAll(ps: Phrases)
    requires WellFormedAll(ps)
    ensures Meets(EvaluateAll(ps), FateAll(ps))
    decreases ps
  {
    if ps.MorePhrases? {
      Evaluates(ps.head);
      EvaluatesAll(ps.tail);
    }
  }

  // Nothing goes wrong exactly where the signs are placed.

  lemma {:induction false} PlacedFollows(p: Phrase, t: Trail, asSign: bool)
    requires WellFormed(p) && FirstHere(t.ops, asSign)
    requires Placed(p, ParenMarker in t.ops, !asSign) && t.misplaced == 0
    ensures Follow(p, t, asSign).Reached? && Follow(p, t, asSign).value.misplaced == 0
    decreases p, 1
  {
    match p
    case Just(a) => PlacedFollowsOperand(a, t);
    case Chain(a, op, rest) =>
      PlacedFollowsOperand(a, t);
      var ops := Staying(op, t.ops);
      StayingSameBase(op, t.ops);
      PushSameBase(op, ops);
      PlacedFollows(rest, t.(ops := [op] + ops), true);
    case Sign(sign, rest) =>
      PushSameBase(sign, t.ops);
      PlacedFollows(rest, t.(ops := [sign] + t.ops), sign != Not);
  }

  lemma {:induction false} PlacedFollowsOperand(a: Operand, t: Trail)
    requires WellFormedOperand(a) && PlacedOperand(a) && t.misplaced == 0
    ensures FollowOperand(a, t) == Reached(t)
    decreases a, 1
  {
    match a
    case Parens(inner) => PlacedFollows(inner, t.(ops := [ParenMarker] + t.ops), false);
    case CallOf(_, args) => PlacedFates(args);
    case Index(_, index) => PlacedFollows(index, Trail([], 0), true);
    case _ =>
  }

  lemma {:induction false} PlacedFates(ps: Phrases)
    requires WellFormedAll(ps) && PlacedAll(ps)
    ensures FateAll(ps).None?
    decreases ps
  {
    if ps.MorePhrases? {
      PlacedFollows(ps.head, Trail([], 0), true);
      PlacedFates(ps.tail);
    }
  }

  lemma {:induction false} FollowsPlaced(p: Phrase, t: Trail, asSign: bool)
    requires WellFormed(p) && Follow(p, t, asSign).Reached?
    ensures Follow(p, t, asSign).value.misplaced >= t.misplaced
    ensures Follow(p, t, asSign).value.misplaced == t.misplaced ==> Placed(p, ParenMarker in t.ops, !asSign)
    decreases p, 1
  {
    match p
    case Just(a) => FollowsPlacedOperand(a, t);
    case Chain(a, op, rest) =>
      FollowsPlacedOperand(a, t);
      var t1 := FollowOperand(a, t).value;
      var ops := Staying(op, t1.ops);
      StayingSameBase(op, t1.ops);
      PushSameBase(op, ops);
      FollowsPlaced(rest, Trail([op] + ops, t1.misplaced), true);
    case Sign(sign, rest) =>
      PushSameBase(BehindSign(sign, t, asSign).ops[0], t.ops);
      FollowsPlaced(rest, BehindSign(sign, t, asSign), sign != Not);
  }

  lemma {:induction false} FollowsPlacedOperand(a: Operand, t: Trail)
    requires WellFormedOperand(a) && FollowOperand(a, t).Reached?
    ensures FollowOperand(a, t).value.ops == t.ops && FollowOperand(a, t).value.misplaced >= t.misplaced
    ensures FollowOperand(a, t).value.misplaced == t.misplaced ==> PlacedOperand(a)
    decreases a, 1
  {
    match a
    case Parens(inner) => FollowsPlaced(inner, t.(ops := [ParenMarker] + t.ops), false);
    case CallOf(_, args) => FatesPlaced(args);
    case Index(_, index) => IndexPlaced(index);
    case _ =>
  }

  lemma {:induction false} IndexPlaced(p: Phrase)
    requires WellFormed(p) && FateIndex(p).None?
    ensures p.Just? && Placed(p)
    decreases p, 2
  {
    OperatorsStay(p, Trail([], 0), true);
    FollowsPlaced(p, Trail([], 0), true);
  }

  lemma {:induction false} OperatorsStay(p: Phrase, t: Trail, asSign: bool)
    requires Follow(p, t, asSign).Reached? && Follow(p, t, asSign).value.ops == []
    ensures p.Just? && t.ops == []
    decreases p
  {
    match p
    case Just(_) =>
    case Chain(a, op, rest) =>
      var t1 := FollowOperand(a, t).value;
      OperatorsStay(rest, Trail([op] + Staying(op, t1.ops), t1.misplaced), true);
    case Sign(sign, rest) => OperatorsStay(rest, BehindSign(sign, t, asSign), sign != Not);
  }

  lemma {:induction false} FatesPlaced(ps: Phrases)
    requires WellFormedAll(ps) && FateAll(ps).None?
    ensures PlacedAll(ps)
    decreases ps
  {
    if ps.MorePhrases? {
      FollowsPlaced(ps.head, Trail([], 0), true);
      FatesPlaced(ps.tail);
    }
  }

  lemma FateIff(p: Phrase)
    requires WellFormed(p)
    ensures Fate(p).None? <==> Placed(p)
  {
    if Placed(p) { PlacedFollows(p, Trail([], 0), true); }
    if Fate(p).None? { FollowsPlaced(p, Trail([], 0), true); }
  }
}
