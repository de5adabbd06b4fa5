/** What the parser's two stacks look like at every point of a run, so that none of the
    unguarded accesses to their tops meets an empty stack. */
module StackDiscipline {
  import opened Options
  import opened ExpressionSyntax
  import opened ShuntingYard
  import opened ParseProof
  import opened ParseTheorems
  import opened PrecedenceTrees
  import ExpressionGrammar

  predicate NoSigns(ops: seq<Operator>) {
    forall i :: 0 <= i < |ops| ==> ops[i] == ParenMarker || IsBinaryOperator(ops[i])
  }

  /** May an operator lie right above another one? */
  predicate Sits(upper: Operator, lower: Operator) {
    upper == ParenMarker || lower == ParenMarker || Precedence(upper) > Precedence(lower)
    || (Precedence(upper) == Precedence(lower) && IsAssignmentOperator(upper) && IsAssignmentOperator(lower))
  }

  /** Between the markers precedences strictly increase towards the top, staying equal
      only among assignments. */
  predicate Ordered(ops: seq<Operator>) {
    forall i :: 0 < i < |ops| ==> Sits(ops[i - 1], ops[i])
  }

  function Markers(ops: seq<Operator>): nat {
    if ops == [] then 0
    else if ops[0] == ParenMarker then Markers(ops[1..]) + 1 else Markers(ops[1..])
  }

  /** Operators waiting for their right operand. */
  function Waiting(ops: seq<Operator>): nat {
    if ops == [] then 0
    else if ops[0] == ParenMarker then Waiting(ops[1..]) else Waiting(ops[1..]) + 1
  }

  predicate ExpectsOperand(toks: seq<Token>, begin: nat, it: nat)
    requires begin <= it <= |toks|
  {
    it == begin || toks[it - 1].OperatorToken? || toks[it - 1].ParenOpen?
  }

  predicate Balanced(s: Stacks, parens: nat, extra: nat) {
    NoSigns(s.operators) && Ordered(s.operators) && Markers(s.operators) == parens
    && |s.operands| == Waiting(s.operators) + extra
  }

  /** Both stacks are as they should be at this point. */
  predicate Disciplined(toks: seq<Token>, begin: nat, c: Config) {
    begin <= c.it <= |toks| && Balanced(c.s, c.parens, if ExpectsOperand(toks, begin, c.it) then 0 else 1)
  }

  /** The next token continues an expression without prefix operators. */
  predicate Legal(toks: seq<Token>, begin: nat, c: Config)
    requires EndsWithEof(toks) && begin <= c.it < |toks|
  {
    var t := toks[c.it];
    if ExpectsOperand(toks, begin, c.it) then
      t.ParenOpen? || t.Literal? || (t.Identifier? && ParseIdentifier(toks, c.it).Parsed?)
    else
      (t.OperatorToken? && IsBinaryOperator(t.op)) || (t.ParenClose? && c.parens > 0)
  }

  /** The loop's variables after n rounds, as long as it has not stopped. */
  function After(toks: seq<Token>, begin: nat, n: nat): (r: Option<Config>)
    requires EndsWithEof(toks) && begin <= |toks|
    ensures r.Some? ==> begin <= r.value.it <= |toks|
  {
    if n == 0 then Some(Start(begin)) else
    match After(toks, begin, n - 1)
    case None => None
    case Some(c) =>
      if c.it == |toks| then None else
      match Step(toks, begin, c)
      case Continue(c1) => Some(c1)
      case Stop(_) => None
  }

  lemma PushKeeps(op: Operator, s: Stacks, parens: nat)
    requires Balanced(s, parens, 1) && IsBinaryOperator(op)
    requires s.operators != [] ==> !Closes(op, s.operators[0])
    ensures Balanced(Push(op, s), parens, 0)
  {
    var ops := Push(op, s).operators;
    assert ops[1..] == s.operators;
    forall i | 0 < i < |ops| ensures Sits(ops[i - 1], ops[i]) {
      if i > 1 { assert Sits(s.operators[i - 2], s.operators[i - 1]); }
    }
  }

  lemma ReduceKeeps(s: Stacks, parens: nat)
    requires Balanced(s, parens, 1) && s.operators != [] && s.operators[0] != ParenMarker
    ensures Reduce(s).Some? && Balanced(Reduce(s).value, parens, 1)
  {
    var ops := s.operators[1..];
    forall i | 0 < i < |ops| ensures Sits(ops[i - 1], ops[i]) {
      assert Sits(s.operators[i], s.operators[i + 1]);
    }
  }

  lemma {:induction false} FlushKeeps(op: Operator, s: Stacks, parens: nat)
    requires Balanced(s, parens, 1) && IsBinaryOperator(op)
    ensures Flush(op, s).Some?
    ensures Balanced(Flush(op, s).value, parens, 1)
    ensures Flush(op, s).value.operators != [] ==> !Closes(op, Flush(op, s).value.operators[0])
    decreases |s.operators|
  {
    if s.operators != [] && Closes(op, s.operators[0]) {
      ReduceKeeps(s, parens);
      FlushKeeps(op, Reduce(s).value, parens);
    }
  }

  lemma {:induction false} CloseKeeps(s: Stacks, parens: nat)
    requires Balanced(s, parens, 1) && parens > 0
    ensures CloseGroup(s).Closed? && Balanced(CloseGroup(s).s, parens - 1, 1)
    decreases |s.operators|
  {
    if s.operators[0] == ParenMarker {
      var ops := s.operators[1..];
      forall i | 0 < i < |ops| ensures Sits(ops[i - 1], ops[i]) {
        assert Sits(s.operators[i], s.operators[i + 1]);
      }
    } else {
      ReduceKeeps(s, parens);
      CloseKeeps(Reduce(s).value, parens);
    }
  }

  lemma TopIsInfix(s: Stacks)
    requires Balanced(s, 0, 1) && s.operators != []
    ensures s.operators[0] != ParenMarker && !IsUnaryOperator(s.operators[0])
  {
  }

  lemma ApplyKeeps(s: Stacks)
    requires Balanced(s, 0, 1) && s.operators != []
    ensures Reduce(s).Some? && Balanced(Reduce(s).value, 0, 1) && ApplyAll(s) == ApplyAll(Reduce(s).value)
    ensures |Reduce(s).value.operators| < |s.operators|
  {
    hide Balanced;
    TopIsInfix(s);
    ReduceKeeps(s, 0);
  }

  lemma {:induction false} ApplyLeavesOne(s: Stacks)
    requires Balanced(s, 0, 1)
    ensures ApplyAll(s).Some? && |ApplyAll(s).value| == 1
    decreases |s.operators|
  {
    if s.operators != [] {
      hide Balanced, ApplyAll, Reduce;
      ApplyKeeps(s);
      ApplyLeavesOne(Reduce(s).value);
    }
  }

  lemma {:induction false} ArgsEnd(toks: seq<Token>, it: nat, args: seq<Expr>)
    requires EndsWithEof(toks) && it < |toks| && ParseArgs(toks, it, args).ParsedArgs?
    ensures var next := ParseArgs(toks, it, args).next; toks[next - 1].ParenClose? || toks[next - 1].EndOfFile?
    decreases |toks| - it
  {
    if toks[it] != EndOfFile {
      var r := ParseExpression(toks, it);
      if toks[r.next] != ParenClose { ArgsEnd(toks, r.next + 1, args + [r.expr]); }
    }
  }

  lemma IdentifierEnd(toks: seq<Token>, it: nat)
    requires EndsWithEof(toks) && it < |toks| && toks[it].Identifier? && ParseIdentifier(toks, it).Parsed?
    ensures var last := toks[ParseIdentifier(toks, it).next - 1]; !last.OperatorToken? && !last.ParenOpen?
  {
    if toks[it + 1].ParenOpen? && !toks[it + 2].ParenClose? { ArgsEnd(toks, it + 2, []); }
  }

  lemma OpenKeeps(s: Stacks, parens: nat)
    requires Balanced(s, parens, 0)
    ensures Balanced(Push(ParenMarker, s), parens + 1, 0)
  {
    var ops := Push(ParenMarker, s).operators;
    assert ops[1..] == s.operators;
    forall i | 0 < i < |ops| ensures Sits(ops[i - 1], ops[i]) {
      if i > 1 { assert Sits(s.operators[i - 2], s.operators[i - 1]); }
    }
  }

  lemma OperatorStep(toks: seq<Token>, begin: nat, c: Config)
    requires EndsWithEof(toks) && Disciplined(toks, begin, c) && c.it < |toks| && Legal(toks, begin, c)
    requires toks[c.it].OperatorToken?
    ensures Step(toks, begin, c).Continue? && Disciplined(toks, begin, Step(toks, begin, c).c)
  {
    hide Balanced, ParseIdentifier;
    var op := toks[c.it].op;
    FlushKeeps(op, c.s, c.parens);
    PushKeeps(op, Flush(op, c.s).value, c.parens);
  }

  lemma CloseStep(toks: seq<Token>, begin: nat, c: Config)
    requires EndsWithEof(toks) && Disciplined(toks, begin, c) && c.it < |toks| && Legal(toks, begin, c)
    requires toks[c.it].ParenClose?
    ensures Step(toks, begin, c).Continue? && Disciplined(toks, begin, Step(toks, begin, c).c)
  {
    hide Balanced, ParseIdentifier;
    CloseKeeps(c.s, c.parens);
  }

  lemma OperandStep(toks: seq<Token>, begin: nat, c: Config)
    requires EndsWithEof(toks) && Disciplined(toks, begin, c) && c.it < |toks| && Legal(toks, begin, c)
    requires !toks[c.it].OperatorToken? && !toks[c.it].ParenClose?
    ensures Step(toks, begin, c).Continue? && Disciplined(toks, begin, Step(toks, begin, c).c)
  {
    if toks[c.it].Identifier? { IdentifierEnd(toks, c.it); }
    if toks[c.it].ParenOpen? { OpenKeeps(c.s, c.parens); }
  }

  /** Every round on a legal token keeps the discipline, and none stops the loop. */
  lemma StepKeeps(toks: seq<Token>, begin: nat, c: Config)
    requires EndsWithEof(toks) && Disciplined(toks, begin, c) && c.it < |toks| && Legal(toks, begin, c)
    ensures Step(toks, begin, c).Continue? && Disciplined(toks, begin, Step(toks, begin, c).c)
  {
    if toks[c.it].OperatorToken? {
      OperatorStep(toks, begin, c);
    } else if toks[c.it].ParenClose? {
      CloseStep(toks, begin, c);
    } else {
      OperandStep(toks, begin, c);
    }
  }

  /** All tokens met in the first n rounds are legal. */
  predicate LegalRounds(toks: seq<Token>, begin: nat, n: nat)
    requires EndsWithEof(toks) && begin <= |toks|
  {
    n == 0 || (LegalRounds(toks, begin, n - 1) && match After(toks, begin, n - 1)
      case Some(c) => c.it < |toks| && Legal(toks, begin, c)
      case None => true)
  }

  lemma {:induction false} FewerRounds(toks: seq<Token>, begin: nat, n: nat, i: nat)
    requires EndsWithEof(toks) && begin <= |toks| && LegalRounds(toks, begin, n) && i <= n
    ensures LegalRounds(toks, begin, i)
  {
    if i < n { FewerRounds(toks, begin, n - 1, i); }
  }

  /** The loop stands at c after n rounds, all on legal tokens. */
  predicate Stays(toks: seq<Token>, begin: nat, n: nat, c: Config)
    requires EndsWithEof(toks) && begin <= |toks|
  {
    LegalRounds(toks, begin, n) && After(toks, begin, n) == Some(c)
  }

  /** The discipline holds after any number of rounds on legal tokens. */
  lemma {:induction false} LegalKeeps(toks: seq<Token>, begin: nat, n: nat)
    requires EndsWithEof(toks) && begin <= |toks| && LegalRounds(toks, begin, n)
    ensures After(toks, begin, n).Some? && Disciplined(toks, begin, After(toks, begin, n).value)
    ensures ParseExpression(toks, begin) == Loop(toks, begin, After(toks, begin, n).value)
  {
    if n > 0 {
      LegalKeeps(toks, begin, n - 1);
      StepKeeps(toks, begin, After(toks, begin, n - 1).value);
    }
  }

  lemma OneRound(toks: seq<Token>, begin: nat, n: nat, c: Config)
    requires EndsWithEof(toks) && begin <= |toks| && Stays(toks, begin, n, c)
    requires c.it < |toks| && Legal(toks, begin, c)
    ensures Step(toks, begin, c).Continue? && Stays(toks, begin, n + 1, Step(toks, begin, c).c)
  {
    LegalKeeps(toks, begin, n);
    StepKeeps(toks, begin, c);
  }

  // The tokens of a sequence of operands and operators are legal, one after the other.

  /** n legal rounds lead to c, where an operand comes next. */
  predicate Before(toks: seq<Token>, begin: nat, n: nat, c: Config) {
    EndsWithEof(toks) && begin <= c.it <= |toks| && Stays(toks, begin, n, c) && ExpectsOperand(toks, begin, c.it)
  }

  /** n legal rounds lead to a place behind an operand. */
  predicate Behind(toks: seq<Token>, begin: nat, n: nat, c: Config) {
    EndsWithEof(toks) && begin <= c.it <= |toks| && Stays(toks, begin, n, c) && !ExpectsOperand(toks, begin, c.it)
  }

  /** c1 is at `end`, with as many parentheses open as at c. */
  predicate Arrives(c: Config, c1: Config, end: nat) {
    c1.it == end && c1.parens == c.parens
  }

  lemma OperatorRound(toks: seq<Token>, begin: nat, n: nat, c: Config) returns (c1: Config)
    requires Behind(toks, begin, n, c) && c.it < |toks|
    requires toks[c.it].OperatorToken? && IsBinaryOperator(toks[c.it].op)
    ensures Before(toks, begin, n + 1, c1) && Arrives(c, c1, c.it + 1)
  {
    hide Stays;
    OneRound(toks, begin, n, c);
    c1 := Step(toks, begin, c).c;
  }

  lemma OpenRound(toks: seq<Token>, begin: nat, n: nat, c: Config) returns (c1: Config)
    requires Before(toks, begin, n, c) && c.it < |toks| && toks[c.it].ParenOpen?
    ensures Before(toks, begin, n + 1, c1) && c1.it == c.it + 1 && c1.parens == c.parens + 1
  {
    hide Stays;
    OneRound(toks, begin, n, c);
    c1 := Step(toks, begin, c).c;
  }

  lemma CloseRound(toks: seq<Token>, begin: nat, n: nat, c: Config) returns (c1: Config)
    requires Behind(toks, begin, n, c) && c.it < |toks| && toks[c.it].ParenClose? && c.parens > 0
    ensures Behind(toks, begin, n + 1, c1) && c1.it == c.it + 1 && c1.parens == c.parens - 1
  {
    hide Stays;
    OneRound(toks, begin, n, c);
    c1 := Step(toks, begin, c).c;
  }

  /** A name, a literal or a call takes one round. */
  lemma OperandRound(toks: seq<Token>, begin: nat, n: nat, c: Config, end: nat) returns (c1: Config)
    requires Before(toks, begin, n, c) && c.it < end <= |toks|
    requires toks[c.it].Identifier? || (toks[c.it].Literal? && end == c.it + 1)
    requires toks[c.it].Identifier? ==> ParseIdentifier(toks, c.it).Parsed? && ParseIdentifier(toks, c.it).next == end
    requires !toks[end - 1].OperatorToken? && !toks[end - 1].ParenOpen?
    ensures Behind(toks, begin, n + 1, c1) && Arrives(c, c1, end)
  {
    hide Stays;
    OneRound(toks, begin, n, c);
    c1 := Step(toks, begin, c).c;
  }

  lemma {:induction false} LegalFlat(toks: seq<Token>, begin: nat, n: nat, c: Config, f: Flat)
    returns (n1: nat, c1: Config)
    requires Before(toks, begin, n, c) && Infixes(f)
    requires At(toks, c.it, Tokens(f)) && Stands(toks, c.it + |Tokens(f)|)
    ensures Behind(toks, begin, n1, c1) && Arrives(c, c1, c.it + |Tokens(f)|)
    decreases f, 2
  {
    hide Stays;
    if f.One? {
      n1, c1 := LegalAtom(toks, begin, n, c, f.a);
    } else {
      FlatLayout(toks, c.it, f);
      n1, c1 := LegalAtom(toks, begin, n, c, f.a);
      n1, c1 := LegalRest(toks, begin, n1, c1, f);
    }
  }

  lemma {:induction false} LegalRest(toks: seq<Token>, begin: nat, n: nat, c: Config, f: Flat)
    returns (n1: nat, c1: Config)
    requires Behind(toks, begin, n, c) && f.Chain? && Infixes(f) && c.it < |toks| && toks[c.it] == OperatorToken(f.op)
    requires At(toks, c.it + 1, Tokens(f.rest)) && Stands(toks, c.it + 1 + |Tokens(f.rest)|)
    ensures Behind(toks, begin, n1, c1) && Arrives(c, c1, c.it + 1 + |Tokens(f.rest)|)
    decreases f, 1
  {
    hide Stays;
    c1 := OperatorRound(toks, begin, n, c);
    n1, c1 := LegalFlat(toks, begin, n + 1, c1, f.rest);
  }

  lemma {:induction false} LegalAtom(toks: seq<Token>, begin: nat, n: nat, c: Config, a: Atom)
    returns (n1: nat, c1: Config)
    requires Before(toks, begin, n, c) && InfixesAtom(a)
    requires At(toks, c.it, TokensAtom(a)) && Stands(toks, c.it + |TokensAtom(a)|)
    ensures Behind(toks, begin, n1, c1) && Arrives(c, c1, c.it + |TokensAtom(a)|)
    decreases a, 1
  {
    hide Stays;
    if a.GroupAtom? {
      n1, c1 := LegalGroup(toks, begin, n, c, a);
    } else {
      ReadAtom(toks, c.it, a);
      c1 := OperandRound(toks, begin, n, c, c.it + |TokensAtom(a)|);
      n1 := n + 1;
    }
  }

  lemma ReadAtom(toks: seq<Token>, it: nat, a: Atom)
    requires EndsWithEof(toks) && InfixesAtom(a) && !a.GroupAtom?
    requires At(toks, it, TokensAtom(a)) && Stands(toks, it + |TokensAtom(a)|)
    ensures toks[it].Identifier? || (toks[it].Literal? && |TokensAtom(a)| == 1)
    ensures toks[it].Identifier? ==>
      ParseIdentifier(toks, it).Parsed? && ParseIdentifier(toks, it).next == it + |TokensAtom(a)|
    ensures |TokensAtom(a)| > 0
    ensures var last := toks[it + |TokensAtom(a)| - 1]; !last.OperatorToken? && !last.ParenOpen?
  {
    AtomRespects(a);
    var y := TokensAtom(a);
    assert y[0] == toks[it] && y[|y| - 1] == toks[it + |y| - 1];
    if a.CallAtom? { ParsesApply(toks, it, ClimbAtom(a)); }
  }

  lemma {:induction false} LegalGroup(toks: seq<Token>, begin: nat, n: nat, c: Config, a: Atom)
    returns (n1: nat, c1: Config)
    requires Before(toks, begin, n, c) && a.GroupAtom? && InfixesAtom(a) && At(toks, c.it, TokensAtom(a))
    ensures Behind(toks, begin, n1, c1) && Arrives(c, c1, c.it + |TokensAtom(a)|)
    decreases a, 0
  {
    hide Stays;
    GroupLayout(toks, c.it, a);
    c1 := OpenRound(toks, begin, n, c);
    n1, c1 := LegalFlat(toks, begin, n + 1, c1, a.inner);
    c1 := CloseRound(toks, begin, n1, c1);
    n1 := n1 + 1;
  }

  /** On a sequence of operands and operators all rounds up to its end are legal. */
  lemma SequenceIsLegal(toks: seq<Token>, begin: nat, f: Flat) returns (n: nat, c: Config)
    requires EndsWithEof(toks) && Infixes(f) && At(toks, begin, Tokens(f)) && Stands(toks, begin + |Tokens(f)|)
    ensures LegalRounds(toks, begin, n) && After(toks, begin, n) == Some(c)
    ensures c.it == begin + |Tokens(f)| && c.parens == 0 && !ExpectsOperand(toks, begin, c.it)
  {
    assert Before(toks, begin, 0, Start(begin));
    n, c := LegalFlat(toks, begin, 0, Start(begin), f);
  }

  /** So on every such sequence the discipline holds after each round, up to its end. */
  lemma AlwaysDisciplined(toks: seq<Token>, begin: nat, f: Flat) returns (n: nat)
    requires EndsWithEof(toks) && Infixes(f) && At(toks, begin, Tokens(f)) && Stands(toks, begin + |Tokens(f)|)
    ensures After(toks, begin, n).Some? && After(toks, begin, n).value.it == begin + |Tokens(f)|
    ensures forall i :: 0 <= i <= n ==>
      After(toks, begin, i).Some? && Disciplined(toks, begin, After(toks, begin, i).value)
  {
    var c: Config;
    n, c := SequenceIsLegal(toks, begin, f);
    forall i | 0 <= i <= n
      ensures After(toks, begin, i).Some? && Disciplined(toks, begin, After(toks, begin, i).value)
    {
      FewerRounds(toks, begin, n, i);
      LegalKeeps(toks, begin, i);
    }
  }

  lemma AtTerminator(toks: seq<Token>, begin: nat, c: Config)
    requires EndsWithEof(toks) && begin <= c.it < |toks| && IsTerminator(toks[c.it]) && c.parens == 0
    ensures Loop(toks, begin, c) == Finish(c.s, c.it)
  {
    assert Step(toks, begin, c) == Stop(Finish(c.s, c.it));
  }

  lemma OneIsLeft(toks: seq<Token>, begin: nat, n: nat, c: Config)
    requires EndsWithEof(toks) && begin <= |toks| && LegalRounds(toks, begin, n)
    requires After(toks, begin, n) == Some(c) && c.it < |toks| && IsTerminator(toks[c.it])
    requires c.parens == 0 && !ExpectsOperand(toks, begin, c.it)
    ensures exists e :: ApplyAll(c.s) == Some([e]) && ParseExpression(toks, begin) == Parsed(e, c.it)
  {
    hide Step, Loop, ParseIdentifier;
    LegalKeeps(toks, begin, n);
    AtTerminator(toks, begin, c);
    ApplyLeavesOne(c.s);
    var left := ApplyAll(c.s).value;
    assert left == [left[0]];
  }

  /** And at the terminator exactly one operand is left when the operators are applied; it is the
      result. */
  lemma RunEndsWithOne(toks: seq<Token>, begin: nat, f: Flat) returns (n: nat, c: Config)
    requires EndsWithEof(toks) && Infixes(f) && At(toks, begin, Tokens(f))
    requires IsTerminator(toks[begin + |Tokens(f)|]) && Stands(toks, begin + |Tokens(f)|)
    ensures After(toks, begin, n) == Some(c) && c.it == begin + |Tokens(f)| && c.parens == 0
    ensures exists e :: ApplyAll(c.s) == Some([e]) && ParseExpression(toks, begin) == Parsed(e, c.it)
  {
    n, c := SequenceIsLegal(toks, begin, f);
    OneIsLeft(toks, begin, n, c);
  }
}
