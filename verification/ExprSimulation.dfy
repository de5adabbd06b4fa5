/** The code of an expression computes what the expression means. */
module ExprSimulation {
  import opened Options
  import opened ProgramSyntax
  import opened SourceMeaning
  import opened Ir
  import opened Lowering

  // ---- operators ----

  lemma ProductBounds(n: int, d: int)
    ensures n > 0 && d >= 1 ==> n * d >= n
    ensures n > 0 && d <= -1 ==> n * d <= -n
    ensures n < 0 && d >= 1 ==> n * d <= n
    ensures n < 0 && d <= -1 ==> n * d >= -n
  {
  }

  lemma DivisionUnique(m: int, n: int, q: int, r: int)
    requires n != 0 && m == n * q + r && 0 <= r && (r < n || r < -n)
    ensures m / n == q && m % n == r
  {
    assert n * (q - m / n) == m % n - r;
    ProductBounds(n, q - m / n);
  }

  lemma NegativeByPositive(a: int, n: int)
    requires a < 0 && n > 0
    ensures Quotient(a, n) == SDivide(a, n)
  {
    var (q, r) := (-a / n, -a % n);
    if r == 0 {
      DivisionUnique(a, n, -q, 0);
    } else {
      assert n * (-q - 1) == -(n * q) - n;
      DivisionUnique(a, n, -q - 1, n - r);
    }
  }

  lemma NegativeByNegative(a: int, n: int)
    requires a < 0 && n > 0
    ensures Quotient(a, -n) == SDivide(a, -n)
  {
    var (q, r) := (-a / n, -a % n);
    if r == 0 {
      DivisionUnique(a, -n, q, 0);
    } else {
      assert -n * (q + 1) == -(n * q) - n;
      DivisionUnique(a, -n, q + 1, n - r);
    }
  }

  /** Rounding the quotient of the magnitudes is what sdiv does. */
  lemma QuotientIsSDivide(a: int, b: int)
    requires b != 0
    ensures Quotient(a, b) == SDivide(a, b)
  {
    if a < 0 && b > 0 {
      NegativeByPositive(a, b);
    } else if a < 0 {
      NegativeByNegative(a, -b);
    } else if b < 0 {
      var (q, r) := (a / -b, a % -b);
      assert b * -q == -b * q;
      DivisionUnique(a, b, -q, r);
    }
  }

  lemma WrappedIsLowBits(w: Width, i: int)
    ensures Wrapped(w, i) == LowBits(w, i)
  {
    var m := Modulus(w);
    var (q, u) := (i / m, i % m);
    assert i == m * q + u;
    if u < m / 2 {
      DivisionUnique(i + m / 2, m, q, u + m / 2);
      assert (i + m / 2) % m == i + m / 2 - m * q;
    } else {
      assert m * (q + 1) == m * q + m;
      DivisionUnique(i + m / 2, m, q + 1, u - m / 2);
      assert (i + m / 2) % m == i + m / 2 - m * (q + 1);
    }
  }

  /** The instruction chosen for an operator has the meaning of the operator. */
  lemma OpcodeMeaning(op: BinaryOp, t: Ty, a: Value, b: Value)
    requires OpcodeFor(op, t).Some?
    ensures Operate(OpcodeFor(op, t).value, a, b) == BinaryMeaning(op, a, b)
  {
    match (a, b) {
      case (IntV(w, i), IntV(w', j)) =>
        if w == w' {
          if j != 0 {
            QuotientIsSDivide(i, j);
          }
        }
      case _ =>
    }
  }

  lemma UnaryCodeMeaning(op: UnaryOp, a: TypedValue, n: nat, v: Value)
    requires LowerUnary(op, a, n).Some?
    ensures var i := LowerUnary(op, a, n).value.0;
            (i.NegI? && i.dst == n && i.a == a.value && Negate(v) == UnaryMeaning(op, v))
            || (i.XorOnes? && i.dst == n && i.a == a.value && Complement(v) == UnaryMeaning(op, v))
  {
    if v.IntV? {
      WrappedIsLowBits(v.width, -v.i);
    }
  }

  lemma ModMeansRem(a: Value, b: Value)
    ensures BinaryMeaning(Mod, a, b) == BinaryMeaning(Rem, a, b)
  {
  }

  lemma ModLowersToRem(a: TypedValue, b: TypedValue, n: nat)
    ensures LowerBinary(Mod, a, b, n) == LowerBinary(Rem, a, b, n)
  {
  }

  /** `%` and `rem` are one operation, in the code they become and in what they mean. */
  lemma ModIsRem(lhs: Expr, rhs: Expr, scopes: seq<Scope>, funcs: Functions, n: nat, st: State, world: World)
    ensures LowerExpr(Binary(Mod, lhs, rhs), scopes, funcs, n) == LowerExpr(Binary(Rem, lhs, rhs), scopes, funcs, n)
    ensures Eval(Binary(Mod, lhs, rhs), st, world) == Eval(Binary(Rem, lhs, rhs), st, world)
  {
    hide LowerBinary, BinaryMeaning;
    forall a, b ensures BinaryMeaning(Mod, a, b) == BinaryMeaning(Rem, a, b) {
      ModMeansRem(a, b);
    }
    forall x, y, m: nat ensures LowerBinary(Mod, x, y, m) == LowerBinary(Rem, x, y, m) {
      ModLowersToRem(x, y, m);
    }
  }

  /** A cast is lowered if and only if it is one from an integer to an integer. */
  lemma CastLowersIff(inner: Expr, to: Ty, scopes: seq<Scope>, funcs: Functions, n: nat)
    ensures LowerExpr(Cast(inner, to), scopes, funcs, n).Some? <==>
      var a := LowerExpr(inner, scopes, funcs, n); a.Some? && a.value.tv.ty.IntT? && to.IntT?
  {
  }

  lemma CastCodeMeaning(v: Value, w: Width)
    ensures SignCast(v, w) == CastMeaning(v, IntT(w))
  {
    if v.IntV? {
      WrappedIsLowBits(w, v.i);
    }
  }

  // ---- registers ----

  /** o is a constant or sits in a register below n. */
  predicate Below(o: Operand, n: nat) {
    match o
    case Constant(_) => true
    case Temp(r) => r < n
    case Loaded(r, _) => r < n
  }

  ghost predicate Agree(regs: Regs, regs': Regs, n: nat) {
    forall r: nat :: r < n && r in regs ==> r in regs' && regs'[r] == regs[r]
  }

  predicate Straight(code: Code) {
    forall i :: 0 <= i < |code| ==> !code[i].IsTerminator() && !code[i].Alloca?
  }

  lemma UnaryFacts(op: UnaryOp, a: TypedValue, n: nat)
    requires LowerUnary(op, a, n).Some?
    ensures var (instr, tv) := LowerUnary(op, a, n).value;
      tv.cat == RValue && Below(tv.value, n + 1) && Straight([instr])
  {
  }

  lemma BinaryFacts(op: BinaryOp, a: TypedValue, b: TypedValue, n: nat)
    requires LowerBinary(op, a, b, n).Some?
    ensures var (instr, tv) := LowerBinary(op, a, b, n).value;
      tv.cat == RValue && Below(tv.value, n + 1) && Straight([instr])
  {
  }

  lemma AssignFacts(op: AssignOp, a: TypedValue, b: TypedValue, n: nat)
    requires LowerAssign(op, a, b, n).Some?
    ensures var (code, n') := LowerAssign(op, a, b, n).value; n' >= n && Straight(code)
  {
  }

  /** Registers are numbered upwards, code is straight-line, and an lvalue is the load of
      the variable an assignment to it would write. */
  lemma {:induction false} EmittedFacts(e: Expr, scopes: seq<Scope>, funcs: Functions, n: nat)
    requires LowerExpr(e, scopes, funcs, n).Some?
    ensures var em := LowerExpr(e, scopes, funcs, n).value;
            && em.next >= n
            && Below(em.tv.value, em.next)
            && Straight(em.code)
            && (em.tv.cat == LValue ==> em.tv.value.Loaded? && Target(e) == Some(em.tv.value.slot))
    decreases e
  {
    hide LowerUnary, LowerBinary, LowerAssign;
    match e {
      case Literal(_) =>
      case VariableRef(_) =>
      case Unary(op, operand) =>
        EmittedFacts(operand, scopes, funcs, n);
        var a := LowerExpr(operand, scopes, funcs, n).value;
        UnaryFacts(op, a.tv, a.next);
      case Cast(inner, _) => EmittedFacts(inner, scopes, funcs, n);
      case Binary(op, lhs, rhs) =>
        EmittedFacts(lhs, scopes, funcs, n);
        var a := LowerExpr(lhs, scopes, funcs, n).value;
        EmittedFacts(rhs, scopes, funcs, a.next);
        var b := LowerExpr(rhs, scopes, funcs, a.next).value;
        BinaryFacts(op, a.tv, b.tv, b.next);
      case Assignment(op, target, source) =>
        EmittedFacts(target, scopes, funcs, n);
        var a := LowerExpr(target, scopes, funcs, n).value;
        EmittedFacts(source, scopes, funcs, a.next);
        var b := LowerExpr(source, scopes, funcs, a.next).value;
        AssignFacts(op, a.tv, b.tv, b.next);
      case Call(_, args) => EmittedArgsFacts(args, scopes, funcs, n);
    }
  }

  lemma {:induction false} EmittedArgsFacts(args: seq<Expr>, scopes: seq<Scope>, funcs: Functions, n: nat)
    requires LowerArgs(args, scopes, funcs, n).Some?
    ensures var em := LowerArgs(args, scopes, funcs, n).value;
            && em.next >= n
            && Straight(em.code)
    decreases args
  {
    if args != [] {
      EmittedFacts(args[0], scopes, funcs, n);
      EmittedArgsFacts(args[1..], scopes, funcs, LowerExpr(args[0], scopes, funcs, n).value.next);
    }
  }

  // ---- runs ----

  /** Running `code` and then `k` gets to `k` with value v in o, or gets stuck. */
  ghost predicate Computes(
    blocks: seq<Code>, code: Code, k: Code, regs: Regs, st: State, world: World, n: nat,
    r: EvalResult, o: Operand, regs': Regs)
  {
    var end := Run(blocks, Running(code + k, regs, st), world, |code|);
    match r
    case Undefined => end == Stuck
    case Evaluated(v, st') =>
      end == Running(k, regs', st') && OperandValue(o, regs') == Some(v) && Agree(regs, regs', n)
  }

  ghost predicate ComputesArgs(
    blocks: seq<Code>, code: Code, k: Code, regs: Regs, st: State, world: World, n: nat,
    r: ArgsResult, os: seq<Operand>, regs': Regs)
  {
    var end := Run(blocks, Running(code + k, regs, st), world, |code|);
    match r
    case UndefinedArgs => end == Stuck
    case EvaluatedArgs(vs, st') =>
      end == Running(k, regs', st') && OperandValues(os, regs') == Some(vs) && Agree(regs, regs', n)
  }

  lemma RunOne(blocks: seq<Code>, c: Config, world: World)
    ensures Run(blocks, c, world, 1) == Step(blocks, c, world)
  {
    assert Run(blocks, c, world, 1) == Run(blocks, Step(blocks, c, world), world, 0);
  }

  /** After the code a come the instructions b. */
  lemma RunThen(blocks: seq<Code>, a: Code, b: Code, k: Code, regs: Regs, st: State, world: World)
    ensures Run(blocks, Running((a + b) + k, regs, st), world, |a + b|)
         == Run(blocks, Run(blocks, Running(a + (b + k), regs, st), world, |a|), world, |b|)
  {
    assert (a + b) + k == a + (b + k);
    RunAdds(blocks, Running(a + (b + k), regs, st), world, |a|, |b|);
  }

  lemma RunLast(blocks: seq<Code>, i: Instr, k: Code, regs: Regs, st: State, world: World)
    ensures Run(blocks, Running([i] + k, regs, st), world, |[i]|) == Step(blocks, Running([i] + k, regs, st), world)
    ensures ([i] + k)[0] == i && ([i] + k)[1..] == k
  {
    RunOne(blocks, Running([i] + k, regs, st), world);
  }

  lemma StuckStays(blocks: seq<Code>, world: World, n: nat)
    ensures Run(blocks, Stuck, world, n) == Stuck
  {
    EndedStays(blocks, Stuck, world, n);
  }

  lemma KeepsValue(o: Operand, regs: Regs, regs': Regs, n: nat)
    requires Agree(regs, regs', n) && Below(o, n) && OperandValue(o, regs).Some?
    ensures OperandValue(o, regs') == OperandValue(o, regs)
  {
  }

  lemma {:induction false} SimExpr(
    e: Expr, scopes: seq<Scope>, funcs: Functions, n: nat, em: Emitted,
    blocks: seq<Code>, k: Code, regs: Regs, st: State, world: World) returns (regs': Regs)
    requires LowerExpr(e, scopes, funcs, n) == Some(em)
    ensures Computes(blocks, em.code, k, regs, st, world, n, Eval(e, st, world), em.tv.value, regs')
    decreases e
  {
    regs' := regs;
    match e {
      case Literal(v) =>
        assert [] + k == k;
      case VariableRef(s) =>
        RunLast(blocks, Load(n, s), k, regs, st, world);
        if s in st.store {
          regs' := regs[n := st.store[s]];
        }
      case Unary(op, operand) =>
        regs' := SimUnary(e, scopes, funcs, n, em, blocks, k, regs, st, world);
      case Cast(_, _) =>
        regs' := SimCast(e, scopes, funcs, n, em, blocks, k, regs, st, world);
      case Binary(op, lhs, rhs) =>
        regs' := SimBinary(e, scopes, funcs, n, em, blocks, k, regs, st, world);
      case Assignment(op, target, source) =>
        regs' := SimAssignment(e, scopes, funcs, n, em, blocks, k, regs, st, world);
      case Call(_, _) =>
        regs' := SimCall(e, scopes, funcs, n, em, blocks, k, regs, st, world);
    }
  }

  lemma {:induction false} SimCast(
    e: Expr, scopes: seq<Scope>, funcs: Functions, n: nat, em: Emitted,
    blocks: seq<Code>, k: Code, regs: Regs, st: State, world: World) returns (regs': Regs)
    requires e.Cast? && LowerExpr(e, scopes, funcs, n) == Some(em)
    ensures Computes(blocks, em.code, k, regs, st, world, n, Eval(e, st, world), em.tv.value, regs')
    decreases e, 0
  {
    var a := LowerExpr(e.inner, scopes, funcs, n).value;
    EmittedFacts(e.inner, scopes, funcs, n);
    var i := IntCast(a.next, a.tv.value, e.to.width);
    regs' := SimExpr(e.inner, scopes, funcs, n, a, blocks, [i] + k, regs, st, world);
    RunThen(blocks, a.code, [i], k, regs, st, world);
    match Eval(e.inner, st, world) {
      case Undefined => StuckStays(blocks, world, 1);
      case Evaluated(v, st1) =>
        CastCodeMeaning(v, e.to.width);
        RunLast(blocks, i, k, regs', st1, world);
        if CastMeaning(v, e.to).Some? {
          regs' := regs'[a.next := CastMeaning(v, e.to).value];
        }
    }
  }

  lemma {:induction false} SimCall(
    e: Expr, scopes: seq<Scope>, funcs: Functions, n: nat, em: Emitted,
    blocks: seq<Code>, k: Code, regs: Regs, st: State, world: World) returns (regs': Regs)
    requires e.Call? && LowerExpr(e, scopes, funcs, n) == Some(em)
    ensures Computes(blocks, em.code, k, regs, st, world, n, Eval(e, st, world), em.tv.value, regs')
    decreases e, 0
  {
    var a := LowerArgs(e.args, scopes, funcs, n).value;
    EmittedArgsFacts(e.args, scopes, funcs, n);
    var i := CallI(a.next, e.callee, Operands(a.tvs));
    regs' := SimArgs(e.args, scopes, funcs, n, a, blocks, [i] + k, regs, st, world);
    RunThen(blocks, a.code, [i], k, regs, st, world);
    match EvalArgs(e.args, st, world) {
      case UndefinedArgs => StuckStays(blocks, world, 1);
      case EvaluatedArgs(vs, st1) =>
        RunLast(blocks, i, k, regs', st1, world);
        regs' := regs'[a.next := CallWorld(world, st1, e.callee, vs).0];
    }
  }

  lemma {:induction false} SimUnary(
    e: Expr, scopes: seq<Scope>, funcs: Functions, n: nat, em: Emitted,
    blocks: seq<Code>, k: Code, regs: Regs, st: State, world: World) returns (regs': Regs)
    requires e.Unary? && LowerExpr(e, scopes, funcs, n) == Some(em)
    ensures Computes(blocks, em.code, k, regs, st, world, n, Eval(e, st, world), em.tv.value, regs')
    decreases e, 0
  {
    var a := LowerExpr(e.operand, scopes, funcs, n).value;
    EmittedFacts(e.operand, scopes, funcs, n);
    var (i, tv) := LowerUnary(e.uop, a.tv, a.next).value;
    regs' := SimExpr(e.operand, scopes, funcs, n, a, blocks, [i] + k, regs, st, world);
    RunThen(blocks, a.code, [i], k, regs, st, world);
    match Eval(e.operand, st, world) {
      case Undefined => StuckStays(blocks, world, 1);
      case Evaluated(v, st1) =>
        UnaryCodeMeaning(e.uop, a.tv, a.next, v);
        RunLast(blocks, i, k, regs', st1, world);
        if UnaryMeaning(e.uop, v).Some? {
          regs' := regs'[a.next := UnaryMeaning(e.uop, v).value];
        }
    }
  }

  /** One operation on two operands that are at hand. */
  lemma BinaryStep(
    op: BinaryOp, a: TypedValue, b: TypedValue, n: nat, x: Value, y: Value,
    blocks: seq<Code>, k: Code, regs: Regs, st: State, world: World)
    requires LowerBinary(op, a, b, n).Some?
    requires OperandValue(a.value, regs) == Some(x) && OperandValue(b.value, regs) == Some(y)
    ensures Run(blocks, Running([LowerBinary(op, a, b, n).value.0] + k, regs, st), world, 1)
         == Ir.Assign(n, BinaryMeaning(op, x, y), k, regs, st)
  {
    OpcodeMeaning(op, a.ty, x, y);
    RunLast(blocks, LowerBinary(op, a, b, n).value.0, k, regs, st, world);
  }

  lemma {:induction false} SimBinary(
    e: Expr, scopes: seq<Scope>, funcs: Functions, n: nat, em: Emitted,
    blocks: seq<Code>, k: Code, regs: Regs, st: State, world: World) returns (regs': Regs)
    requires e.Binary? && LowerExpr(e, scopes, funcs, n) == Some(em)
    ensures Computes(blocks, em.code, k, regs, st, world, n, Eval(e, st, world), em.tv.value, regs')
    decreases e, 0
  {
    var a := LowerExpr(e.lhs, scopes, funcs, n).value;
    var b := LowerExpr(e.rhs, scopes, funcs, a.next).value;
    EmittedFacts(e.lhs, scopes, funcs, n);
    EmittedFacts(e.rhs, scopes, funcs, a.next);
    var i := LowerBinary(e.bop, a.tv, b.tv, b.next).value.0;
    var regs1 := SimExpr(e.lhs, scopes, funcs, n, a, blocks, b.code + [i] + k, regs, st, world);
    regs' := regs1;
    assert a.code + b.code + [i] == a.code + (b.code + [i]);
    RunThen(blocks, a.code, b.code + [i], k, regs, st, world);
    match Eval(e.lhs, st, world) {
      case Undefined => StuckStays(blocks, world, |b.code + [i]|);
      case Evaluated(x, st1) =>
        var regs2 := SimExpr(e.rhs, scopes, funcs, a.next, b, blocks, [i] + k, regs1, st1, world);
        regs' := regs2;
        RunThen(blocks, b.code, [i], k, regs1, st1, world);
        match Eval(e.rhs, st1, world) {
          case Undefined => StuckStays(blocks, world, 1);
          case Evaluated(y, st2) =>
            KeepsValue(a.tv.value, regs1, regs2, a.next);
            BinaryStep(e.bop, a.tv, b.tv, b.next, x, y, blocks, k, regs2, st2, world);
            if BinaryMeaning(e.bop, x, y).Some? {
              regs' := regs2[b.next := BinaryMeaning(e.bop, x, y).value];
            }
        }
    }
  }

  /** The instructions of an assignment store the assigned value. */
  lemma AssignSteps(
    op: AssignOp, a: TypedValue, b: TypedValue, n: nat, x: Value, y: Value,
    blocks: seq<Code>, k: Code, regs: Regs, st: State, world: World) returns (regs': Regs)
    requires LowerAssign(op, a, b, n).Some? && Below(a.value, n)
    requires OperandValue(a.value, regs) == Some(x) && OperandValue(b.value, regs) == Some(y)
    ensures var code := LowerAssign(op, a, b, n).value.0;
            var end := Run(blocks, Running(code + k, regs, st), world, |code|);
            match AssignedValue(op, x, y)
            case None => end == Stuck
            case Some(v) =>
              && end == Running(k, regs', st.(store := st.store[a.value.slot := v]))
              && Agree(regs, regs', n) && OperandValue(a.value, regs') == Some(x)
  {
    regs' := regs;
    match op {
      case Simple =>
        RunLast(blocks, StoreTo(b.value, a.value.slot), k, regs, st, world);
      case Compound(bop) =>
        var (i, r) := LowerBinary(bop, a, b, n).value;
        var store := StoreTo(r.value, a.value.slot);
        assert [i, store] == [i] + [store];
        RunThen(blocks, [i], [store], k, regs, st, world);
        BinaryStep(bop, a, b, n, x, y, blocks, [store] + k, regs, st, world);
        match BinaryMeaning(bop, x, y) {
          case None => StuckStays(blocks, world, 1);
          case Some(v) =>
            regs' := regs[n := v];
            RunLast(blocks, store, k, regs', st, world);
        }
    }
  }

  lemma {:induction false} SimAssignment(
    e: Expr, scopes: seq<Scope>, funcs: Functions, n: nat, em: Emitted,
    blocks: seq<Code>, k: Code, regs: Regs, st: State, world: World) returns (regs': Regs)
    requires e.Assignment? && LowerExpr(e, scopes, funcs, n) == Some(em)
    ensures Computes(blocks, em.code, k, regs, st, world, n, Eval(e, st, world), em.tv.value, regs')
    decreases e, 0
  {
    var a := LowerExpr(e.target, scopes, funcs, n).value;
    var b := LowerExpr(e.source, scopes, funcs, a.next).value;
    EmittedFacts(e.target, scopes, funcs, n);
    EmittedFacts(e.source, scopes, funcs, a.next);
    var code := LowerAssign(e.aop, a.tv, b.tv, b.next).value.0;
    var regs1 := SimExpr(e.target, scopes, funcs, n, a, blocks, b.code + code + k, regs, st, world);
    regs' := regs1;
    assert a.code + b.code + code == a.code + (b.code + code);
    RunThen(blocks, a.code, b.code + code, k, regs, st, world);
    match Eval(e.target, st, world) {
      case Undefined => StuckStays(blocks, world, |b.code + code|);
      case Evaluated(x, st1) =>
        var regs2 := SimExpr(e.source, scopes, funcs, a.next, b, blocks, code + k, regs1, st1, world);
        regs' := regs2;
        RunThen(blocks, b.code, code, k, regs1, st1, world);
        match Eval(e.source, st1, world) {
          case Undefined => StuckStays(blocks, world, |code|);
          case Evaluated(y, st2) =>
            KeepsValue(a.tv.value, regs1, regs2, a.next);
            regs' := AssignSteps(e.aop, a.tv, b.tv, b.next, x, y, blocks, k, regs2, st2, world);
        }
    }
  }

  lemma {:induction false} SimArgs(
    args: seq<Expr>, scopes: seq<Scope>, funcs: Functions, n: nat, em: EmittedArgs,
    blocks: seq<Code>, k: Code, regs: Regs, st: State, world: World) returns (regs': Regs)
    requires LowerArgs(args, scopes, funcs, n) == Some(em)
    ensures ComputesArgs(blocks, em.code, k, regs, st, world, n, EvalArgs(args, st, world), Operands(em.tvs), regs')
    decreases args
  {
    regs' := regs;
    if args == [] {
      assert [] + k == k;
    } else {
      var a := LowerExpr(args[0], scopes, funcs, n).value;
      var b := LowerArgs(args[1..], scopes, funcs, a.next).value;
      EmittedFacts(args[0], scopes, funcs, n);
      var regs1 := SimExpr(args[0], scopes, funcs, n, a, blocks, b.code + k, regs, st, world);
      regs' := regs1;
      RunThen(blocks, a.code, b.code, k, regs, st, world);
      match Eval(args[0], st, world) {
        case Undefined => StuckStays(blocks, world, |b.code|);
        case Evaluated(v, st1) =>
          regs' := SimArgs(args[1..], scopes, funcs, a.next, b, blocks, k, regs1, st1, world);
          assert em.tvs[1..] == b.tvs;
          if EvalArgs(args[1..], st1, world).EvaluatedArgs? {
            KeepsValue(a.tv.value, regs1, regs', a.next);
          }
      }
    }
  }
}
