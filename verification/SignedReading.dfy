/** What the parser's loop does over the tokens of an expression with prefix operators, phrase
    by phrase: the stacks it reaches, or how it breaks off. */
module SignedReading {
  import opened Options
  import opened ExpressionSyntax
  import opened ShuntingYard
  import opened ParseProof
  import opened SignedGrammar

  /** The two ways an expression can go wrong: an error is reported, or the C++ takes the
      top of an empty stack. */
  datatype Fault = Fails | Overpops

  datatype Outcome<T> = Reached(value: T) | Broken(fault: Fault)

  function FaultResult(f: Fault): Result {
    if f == Fails then Failed else Undefined
  }

  function AsResult(o: Outcome<Expr>, next: nat): Result {
    match o
    case Reached(e) => Parsed(e, next)
    case Broken(f) => FaultResult(f)
  }

  function FlushOutcome(op: Operator, s: Stacks): Outcome<Stacks> {
    match Flush(op, s)
    case Some(s1) => Reached(Push(op, s1))
    case None => Broken(Overpops)
  }

  function CloseOutcome(s: Stacks): Outcome<Stacks> {
    match CloseGroup(s)
    case Closed(s1) => Reached(s1)
    case NoOpening => Broken(Fails)
    case Underflow => Broken(Overpops)
  }

  function ApplyOutcome(s: Stacks): Outcome<Expr> {
    match ApplyAll(s)
    case Some(left) => Reached(if left == [] then EmptyExpr else left[0])
    case None => Broken(Fails)
  }

  /** The infix operator that + and - are where no sign is expected. */
  function InfixOf(sign: Operator): Operator {
    if sign == Plus then Add else Sub
  }

  /** `asSign` says whether + and - are signs at the beginning of p. */
  function Read(p: Phrase, s: Stacks, asSign: bool): Outcome<Stacks>
    decreases p, 1
  {
    match p
    case Just(a) => ReadOperand(a, s)
    case Chain(a, op, rest) =>
      (match ReadOperand(a, s)
       case Broken(f) => Broken(f)
       case Reached(s1) => ReadBehind(op, rest, s1))
    case Sign(sign, rest) =>
      if sign == Not then Read(rest, Push(Not, s), false)
      else if asSign then Read(rest, Push(sign, s), true)
      else ReadBehind(InfixOf(sign), rest, s)
  }

  /** An infix operator, and what follows it. */
  function ReadBehind(op: Operator, rest: Phrase, s: Stacks): Outcome<Stacks>
    decreases rest, 2
  {
    match FlushOutcome(op, s)
    case Broken(f) => Broken(f)
    case Reached(s1) => Read(rest, s1, true)
  }

  function ReadOperand(a: Operand, s: Stacks): Outcome<Stacks>
    decreases a, 1
  {
    match a
    case Parens(inner) =>
      (match Read(inner, Push(ParenMarker, s), false)
       case Broken(f) => Broken(f)
       case Reached(s1) => CloseOutcome(s1))
    case _ =>
      (match ValueOf(a)
       case Broken(f) => Broken(f)
       case Reached(e) => Reached(PushOperand(e, s)))
  }

  /** The operand an identifier, a call, a subscript or a literal is; these do not depend on the stacks. */
  function ValueOf(a: Operand): Outcome<Expr>
    decreases a, 0
  {
    match a
    case Name(name) => Reached(Variable(name))
    case Lit(text) => Reached(LiteralExpr(text))
    case CallOf(callee, args) =>
      (match EvaluateAll(args)
       case Broken(f) => Broken(f)
       case Reached(es) => Reached(Call(callee, es)))
    case Index(base, index) =>
      (match EvaluateIndex(index)
       case Broken(f) => Broken(f)
       case Reached(e) => Reached(Binary(Subscript, Variable(base), e)))
    case Parens(inner) => Evaluate(inner)
  }

  /** An expression of its own, up to a terminator. */
  function Evaluate(p: Phrase): Outcome<Expr>
    decreases p, 2
  {
    match Read(p, Stacks([], []), true)
    case Broken(f) => Broken(f)
    case Reached(s) => ApplyOutcome(s)
  }

  /** The same up to a closing bracket, which is no terminator. */
  function EvaluateIndex(p: Phrase): Outcome<Expr>
    decreases p, 2
  {
    match Read(p, Stacks([], []), true)
    case Broken(f) => Broken(f)
    case Reached(s) => if s.operators == [] then ApplyOutcome(s) else Broken(Fails)
  }

  function EvaluateAll(ps: Phrases): Outcome<seq<Expr>> {
    if ps.NoPhrases? then Reached([]) else
    match Evaluate(ps.head)
    case Broken(f) => Broken(f)
    case Reached(e) =>
      match EvaluateAll(ps.tail)
      case Broken(f) => Broken(f)
      case Reached(es) => Reached([e] + es)
  }

  // The tokens of the parts.

  /** An operand has been read up to here. */
  predicate BehindOperand(toks: seq<Token>, end: nat) {
    0 < end < |toks| && var t := toks[end - 1];
    t.Identifier? || t.Literal? || t.ParenClose? || t.SqrClose?
  }

  lemma {:induction false} PhraseEnds(p: Phrase)
    ensures Tokens(p) != []
    ensures var t := Tokens(p)[|Tokens(p)| - 1]; t.Identifier? || t.Literal? || t.ParenClose? || t.SqrClose?
    ensures var t := Tokens(p)[0]; !t.ParenClose? && !t.EndOfFile?
  {
    match p
    case Just(a) => OperandEnds(a);
    case Chain(a, _, rest) => OperandEnds(a); PhraseEnds(rest);
    case Sign(_, rest) => PhraseEnds(rest);
  }

  lemma OperandEnds(a: Operand)
    ensures TokensOperand(a) != []
    ensures var t := TokensOperand(a)[|TokensOperand(a)| - 1];
      t.Identifier? || t.Literal? || t.ParenClose? || t.SqrClose?
    ensures var t := TokensOperand(a)[0]; t.Identifier? || t.Literal? || t.ParenOpen?
  {
  }

  lemma PhraseAt(toks: seq<Token>, it: nat, p: Phrase)
    requires At(toks, it, Tokens(p))
    ensures |Tokens(p)| > 0 && BehindOperand(toks, it + |Tokens(p)|)
    ensures !toks[it].ParenClose? && !toks[it].EndOfFile?
  {
    PhraseEnds(p);
    var y := Tokens(p);
    assert y[0] == toks[it] && y[|y| - 1] == toks[it + |y| - 1];
  }

  lemma OperandAt(toks: seq<Token>, it: nat, a: Operand)
    requires At(toks, it, TokensOperand(a))
    ensures |TokensOperand(a)| > 0 && BehindOperand(toks, it + |TokensOperand(a)|)
  {
    OperandEnds(a);
    var y := TokensOperand(a);
    assert y[|y| - 1] == toks[it + |y| - 1];
  }

  lemma LayoutChain(toks: seq<Token>, it: nat, p: Phrase)
    requires p.Chain? && At(toks, it, Tokens(p))
    ensures |Tokens(p)| == |TokensOperand(p.a)| + 1 + |Tokens(p.rest)|
    ensures At(toks, it, TokensOperand(p.a)) && toks[it + |TokensOperand(p.a)|] == OperatorToken(p.op)
    ensures BehindOperand(toks, it + |TokensOperand(p.a)|) && Stands(toks, it + |TokensOperand(p.a)|)
    ensures At(toks, it + |TokensOperand(p.a)| + 1, Tokens(p.rest))
  {
    var a, rest := TokensOperand(p.a), Tokens(p.rest);
    Split(toks, it, a, [OperatorToken(p.op)] + rest);
    Split(toks, it + |a|, [OperatorToken(p.op)], rest);
    OperandAt(toks, it, p.a);
  }

  lemma LayoutSign(toks: seq<Token>, it: nat, p: Phrase)
    requires p.Sign? && At(toks, it, Tokens(p))
    ensures |Tokens(p)| == 1 + |Tokens(p.rest)| && it + 1 < |toks|
    ensures toks[it] == SignToken(p.sign) && At(toks, it + 1, Tokens(p.rest))
  {
    Split(toks, it, [SignToken(p.sign)], Tokens(p.rest));
    assert [SignToken(p.sign)][0] == toks[it];
  }

  lemma LayoutParens(toks: seq<Token>, it: nat, a: Operand)
    requires a.Parens? && At(toks, it, TokensOperand(a))
    ensures |TokensOperand(a)| == |Tokens(a.inner)| + 2
    ensures toks[it] == ParenOpen && At(toks, it + 1, Tokens(a.inner))
    ensures toks[it + 1 + |Tokens(a.inner)|] == ParenClose && Stands(toks, it + 1 + |Tokens(a.inner)|)
  {
    Split(toks, it, [ParenOpen], Tokens(a.inner) + [ParenClose]);
    Split(toks, it + 1, Tokens(a.inner), [ParenClose]);
    assert [ParenOpen][0] == toks[it];
  }

  lemma LayoutCall(toks: seq<Token>, it: nat, a: Operand)
    requires a.CallOf? && At(toks, it, TokensOperand(a))
    ensures |TokensOperand(a)| == 2 + |TokensArgs(a.args)| + 1
    ensures toks[it] == Identifier(a.callee) && toks[it + 1] == ParenOpen
    ensures At(toks, it + 2, TokensArgs(a.args)) && toks[it + 2 + |TokensArgs(a.args)|] == ParenClose
  {
    var head := [Identifier(a.callee), ParenOpen];
    Split(toks, it, head, TokensArgs(a.args) + [ParenClose]);
    Split(toks, it + 2, TokensArgs(a.args), [ParenClose]);
    assert head[0] == toks[it] && head[1] == toks[it + 1];
  }

  lemma LayoutIndex(toks: seq<Token>, it: nat, a: Operand)
    requires a.Index? && At(toks, it, TokensOperand(a))
    ensures |TokensOperand(a)| == 2 + |Tokens(a.index)| + 1
    ensures toks[it] == Identifier(a.base) && toks[it + 1] == SqrOpen
    ensures At(toks, it + 2, Tokens(a.index)) && toks[it + 2 + |Tokens(a.index)|] == SqrClose
  {
    var head := [Identifier(a.base), SqrOpen];
    Split(toks, it, head, Tokens(a.index) + [SqrClose]);
    Split(toks, it + 2, Tokens(a.index), [SqrClose]);
    assert head[0] == toks[it] && head[1] == toks[it + 1];
  }

  /** The first argument, and behind a comma the others. */
  lemma LayoutArgs(toks: seq<Token>, it: nat, ps: Phrases)
    requires ps.MorePhrases? && At(toks, it, TokensArgs(ps)) && toks[it + |TokensArgs(ps)|] == ParenClose
    ensures At(toks, it, Tokens(ps.head)) && Stands(toks, it + |Tokens(ps.head)|)
    ensures !toks[it].ParenClose? && !toks[it].EndOfFile?
    ensures ps.tail.NoPhrases? ==> toks[it + |Tokens(ps.head)|] == ParenClose
    ensures ps.tail.MorePhrases? ==>
      toks[it + |Tokens(ps.head)|] == Comma
      && |TokensArgs(ps)| == |Tokens(ps.head)| + 1 + |TokensArgs(ps.tail)|
      && At(toks, it + |Tokens(ps.head)| + 1, TokensArgs(ps.tail))
  {
    if ps.tail.MorePhrases? {
      var y, rest := Tokens(ps.head), TokensArgs(ps.tail);
      Split(toks, it, y, [Comma] + rest);
      Split(toks, it + |y|, [Comma], rest);
    }
    PhraseAt(toks, it, ps.head);
  }

  // The loop.

  /** The loop goes on at `end` with what was reached, or has ended. */
  ghost predicate Leads(toks: seq<Token>, begin: nat, c: Config, o: Outcome<Stacks>, end: nat)
    requires EndsWithEof(toks) && begin <= c.it <= |toks| && begin <= end <= |toks|
  {
    match o
    case Reached(s) => Loop(toks, begin, c) == Loop(toks, begin, Config(end, s, c.parens))
    case Broken(f) => Loop(toks, begin, c) == FaultResult(f)
  }

  lemma {:induction false} RunPhrase(toks: seq<Token>, begin: nat, c: Config, p: Phrase)
    requires EndsWithEof(toks) && begin <= c.it && WellFormed(p)
    requires At(toks, c.it, Tokens(p)) && Stands(toks, c.it + |Tokens(p)|)
    ensures Leads(toks, begin, c, Read(p, c.s, SignPosition(toks, begin, c.it)), c.it + |Tokens(p)|)
    decreases p, 3
  {
    match p
    case Just(a) => RunOperand(toks, begin, c, a);
    case Chain(a, op, rest) => RunChain(toks, begin, c, p);
    case Sign(sign, rest) => RunSign(toks, begin, c, p);
  }

  lemma StepTo(toks: seq<Token>, begin: nat, c: Config, c1: Config, o: Outcome<Stacks>, end: nat)
    requires EndsWithEof(toks) && begin <= c.it < |toks| && begin <= end <= |toks|
    requires Step(toks, begin, c) == Continue(c1) && c1.parens == c.parens
    requires Leads(toks, begin, c1, o, end)
    ensures Leads(toks, begin, c, o, end)
  {
    OneStep(toks, begin, c, c1);
  }

  lemma {:induction false} RunChain(toks: seq<Token>, begin: nat, c: Config, p: Phrase)
    requires EndsWithEof(toks) && begin <= c.it && WellFormed(p) && p.Chain?
    requires At(toks, c.it, Tokens(p)) && Stands(toks, c.it + |Tokens(p)|)
    ensures Leads(toks, begin, c, Read(p, c.s, SignPosition(toks, begin, c.it)), c.it + |Tokens(p)|)
    decreases p, 2
  {
    LayoutChain(toks, c.it, p);
    RunOperand(toks, begin, c, p.a);
    var o := ReadOperand(p.a, c.s);
    if o.Reached? {
      var c1 := Config(c.it + |TokensOperand(p.a)|, o.value, c.parens);
      RunBehind(toks, begin, c1, p.op, p.rest);
    }
  }

  lemma {:induction false} RunBehind(toks: seq<Token>, begin: nat, c: Config, op: Operator, rest: Phrase)
    requires EndsWithEof(toks) && begin <= c.it < |toks| && IsBinaryOperator(op) && WellFormed(rest)
    requires toks[c.it] == OperatorToken(op) && ((op == Add || op == Sub) ==> !SignPosition(toks, begin, c.it))
    requires At(toks, c.it + 1, Tokens(rest)) && Stands(toks, c.it + 1 + |Tokens(rest)|)
    ensures Leads(toks, begin, c, ReadBehind(op, rest, c.s), c.it + 1 + |Tokens(rest)|)
    decreases rest, 4
  {
    var o := FlushOutcome(op, c.s);
    if o.Reached? {
      var c1 := Config(c.it + 1, o.value, c.parens);
      assert Step(toks, begin, c) == Continue(c1);
      RunPhrase(toks, begin, c1, rest);
      StepTo(toks, begin, c, c1, Read(rest, o.value, true), c.it + 1 + |Tokens(rest)|);
    } else {
      assert Step(toks, begin, c) == Stop(Undefined);
    }
  }

  lemma {:induction false} RunSign(toks: seq<Token>, begin: nat, c: Config, p: Phrase)
    requires EndsWithEof(toks) && begin <= c.it && WellFormed(p) && p.Sign?
    requires At(toks, c.it, Tokens(p)) && Stands(toks, c.it + |Tokens(p)|)
    ensures Leads(toks, begin, c, Read(p, c.s, SignPosition(toks, begin, c.it)), c.it + |Tokens(p)|)
    decreases p, 2
  {
    hide Flush;
    LayoutSign(toks, c.it, p);
    if p.sign != Not && !SignPosition(toks, begin, c.it) {
      RunBehind(toks, begin, c, InfixOf(p.sign), p.rest);
    } else {
      var c1 := Config(c.it + 1, Push(p.sign, c.s), c.parens);
      assert Step(toks, begin, c) == Continue(c1);
      RunPhrase(toks, begin, c1, p.rest);
      StepTo(toks, begin, c, c1, Read(p.rest, c1.s, p.sign != Not), c.it + |Tokens(p)|);
    }
  }

  lemma {:induction false} RunOperand(toks: seq<Token>, begin: nat, c: Config, a: Operand)
    requires EndsWithEof(toks) && begin <= c.it && WellFormedOperand(a)
    requires At(toks, c.it, TokensOperand(a)) && Stands(toks, c.it + |TokensOperand(a)|)
    ensures Leads(toks, begin, c, ReadOperand(a, c.s), c.it + |TokensOperand(a)|)
    decreases a, 2
  {
    match a {
      case Parens(_) => RunParens(toks, begin, c, a);
      case Lit(_) =>
        assert TokensOperand(a)[0] == toks[c.it];
        OneStep(toks, begin, c, Config(c.it + 1, PushOperand(ValueOf(a).value, c.s), c.parens));
      case Name(_) =>
        assert TokensOperand(a)[0] == toks[c.it];
        RunIdentifier(toks, begin, c, a);
      case CallOf(_, _) =>
        LayoutCall(toks, c.it, a);
        ParsesCall(toks, c.it, a);
        RunIdentifier(toks, begin, c, a);
      case Index(_, _) =>
        LayoutIndex(toks, c.it, a);
        ParsesIndex(toks, c.it, a);
        RunIdentifier(toks, begin, c, a);
    }
  }

  lemma RunIdentifier(toks: seq<Token>, begin: nat, c: Config, a: Operand)
    requires EndsWithEof(toks) && begin <= c.it && !a.Parens?
    requires c.it + |TokensOperand(a)| <= |toks| && c.it < |toks| && toks[c.it].Identifier?
    requires ParseIdentifier(toks, c.it) == AsResult(ValueOf(a), c.it + |TokensOperand(a)|)
    ensures Leads(toks, begin, c, ReadOperand(a, c.s), c.it + |TokensOperand(a)|)
  {
  }

  lemma {:induction false} RunParens(toks: seq<Token>, begin: nat, c: Config, a: Operand)
    requires EndsWithEof(toks) && begin <= c.it && a.Parens? && WellFormedOperand(a)
    requires At(toks, c.it, TokensOperand(a))
    ensures Leads(toks, begin, c, ReadOperand(a, c.s), c.it + |TokensOperand(a)|)
    decreases a, 1
  {
    hide ParseIdentifier, CloseOutcome, Read, Tokens;
    LayoutParens(toks, c.it, a);
    var c1 := Config(c.it + 1, Push(ParenMarker, c.s), c.parens + 1);
    OneStep(toks, begin, c, c1);
    RunPhrase(toks, begin, c1, a.inner);
    var o := Read(a.inner, c1.s, false);
    if o.Reached? {
      StepClose(toks, begin, Config(c1.it + |Tokens(a.inner)|, o.value, c1.parens));
    }
  }

  lemma StepClose(toks: seq<Token>, begin: nat, c: Config)
    requires EndsWithEof(toks) && begin <= c.it < |toks| && toks[c.it] == ParenClose && c.parens > 0
    ensures match CloseOutcome(c.s)
      case Reached(s) => Loop(toks, begin, c) == Loop(toks, begin, Config(c.it + 1, s, c.parens - 1))
      case Broken(f) => Loop(toks, begin, c) == FaultResult(f)
  {
  }

  lemma {:induction false} ParsesCall(toks: seq<Token>, it: nat, a: Operand)
    requires EndsWithEof(toks) && a.CallOf? && WellFormedOperand(a) && At(toks, it, TokensOperand(a))
    requires toks[it].Identifier?
    ensures ParseIdentifier(toks, it) == AsResult(ValueOf(a), it + |TokensOperand(a)|)
    decreases a, 1
  {
    LayoutCall(toks, it, a);
    if a.args.MorePhrases? {
      LayoutArgs(toks, it + 2, a.args);
      RunArgs(toks, it + 2, [], a.args);
      if EvaluateAll(a.args).Reached? { assert [] + EvaluateAll(a.args).value == EvaluateAll(a.args).value; }
    }
  }

  function ArgsOutcome(acc: seq<Expr>, o: Outcome<seq<Expr>>, next: nat): ArgsResult {
    match o
    case Reached(es) => ParsedArgs(acc + es, next)
    case Broken(f) => if f == Fails then FailedArgs else UndefinedArgs
  }

  lemma {:induction false} RunArgs(toks: seq<Token>, it: nat, acc: seq<Expr>, ps: Phrases)
    requires EndsWithEof(toks) && ps.MorePhrases? && WellFormedAll(ps)
    requires At(toks, it, TokensArgs(ps)) && toks[it + |TokensArgs(ps)|] == ParenClose
    ensures ParseArgs(toks, it, acc) == ArgsOutcome(acc, EvaluateAll(ps), it + |TokensArgs(ps)| + 1)
    decreases ps
  {
    hide ParseExpression, Evaluate, Tokens;
    LayoutArgs(toks, it, ps);
    ParsesPhrase(toks, it, ps.head);
    var o := Evaluate(ps.head);
    if o.Reached? && ps.tail.MorePhrases? {
      var next := it + |Tokens(ps.head)| + 1;
      RunArgs(toks, next, acc + [o.value], ps.tail);
      JoinArgs(acc, o.value, EvaluateAll(ps.tail), it + |TokensArgs(ps)| + 1);
    }
  }

  lemma JoinArgs(acc: seq<Expr>, e: Expr, o: Outcome<seq<Expr>>, next: nat)
    ensures ArgsOutcome(acc + [e], o, next) == match o
      case Reached(es) => ParsedArgs(acc + ([e] + es), next)
      case Broken(f) => ArgsOutcome(acc, Broken(f), next)
  {
    if o.Reached? { assert acc + [e] + o.value == acc + ([e] + o.value); }
  }

  lemma {:induction false} ParsesIndex(toks: seq<Token>, it: nat, a: Operand)
    requires EndsWithEof(toks) && a.Index? && WellFormedOperand(a) && At(toks, it, TokensOperand(a))
    requires toks[it].Identifier?
    ensures ParseIdentifier(toks, it) == AsResult(ValueOf(a), it + |TokensOperand(a)|)
    decreases a, 1
  {
    LayoutIndex(toks, it, a);
    RunPhrase(toks, it + 2, Start(it + 2), a.index);
    EndAtBracket(toks, it + 2, a.index);
  }

  /** The end of an expression: only a terminator allows operators to be waiting. */
  lemma StopAt(toks: seq<Token>, begin: nat, c: Config)
    requires EndsWithEof(toks) && begin <= c.it < |toks| && c.parens == 0
    requires IsTerminator(toks[c.it]) || toks[c.it].SqrClose?
    ensures Loop(toks, begin, c) ==
      if IsTerminator(toks[c.it]) || c.s.operators == [] then AsResult(ApplyOutcome(c.s), c.it) else Failed
  {
    assert Step(toks, begin, c) == Stop(
      if IsTerminator(toks[c.it]) then Finish(c.s, c.it) else Other(c.s, c.it));
  }

  lemma EndAtBracket(toks: seq<Token>, it: nat, p: Phrase)
    requires EndsWithEof(toks) && it + |Tokens(p)| < |toks| && toks[it + |Tokens(p)|] == SqrClose
    requires Leads(toks, it, Start(it), Read(p, Stacks([], []), true), it + |Tokens(p)|)
    ensures ParseExpression(toks, it) == AsResult(EvaluateIndex(p), it + |Tokens(p)|)
  {
    var o := Read(p, Stacks([], []), true);
    if o.Reached? { StopAt(toks, it, Config(it + |Tokens(p)|, o.value, 0)); }
  }

  /** Parsing an expression up to a terminator, whatever its prefix operators. */
  lemma {:induction false} ParsesPhrase(toks: seq<Token>, it: nat, p: Phrase)
    requires EndsWithEof(toks) && WellFormed(p) && At(toks, it, Tokens(p))
    requires IsTerminator(toks[it + |Tokens(p)|]) && Stands(toks, it + |Tokens(p)|)
    ensures ParseExpression(toks, it) == AsResult(Evaluate(p), it + |Tokens(p)|)
    decreases p, 5
  {
    RunPhrase(toks, it, Start(it), p);
    EndAtTerminator(toks, it, p);
  }

  lemma EndAtTerminator(toks: seq<Token>, it: nat, p: Phrase)
    requires EndsWithEof(toks) && it + |Tokens(p)| < |toks| && IsTerminator(toks[it + |Tokens(p)|])
    requires Leads(toks, it, Start(it), Read(p, Stacks([], []), true), it + |Tokens(p)|)
    ensures ParseExpression(toks, it) == AsResult(Evaluate(p), it + |Tokens(p)|)
  {
    var o := Read(p, Stacks([], []), true);
    if o.Reached? { StopAt(toks, it, Config(it + |Tokens(p)|, o.value, 0)); }
  }
}
