/** The blocks of a statement do what the statement means, loops and returns included. */
module StmtSimulation {
  import opened Options
  import opened ProgramSyntax
  import opened SourceMeaning
  import opened Ir
  import opened Lowering
  import opened ExprSimulation
  import opened BlockGrowth

  /** `blocks` holds all the code of g, perhaps followed by more. */
  ghost predicate Contains(blocks: seq<Code>, g: Gen) {
    |g.blocks| <= |blocks| && forall b :: 0 <= b < |g.blocks| ==> g.blocks[b] <= blocks[b]
  }

  ghost predicate Holds(blocks: seq<Code>, g: Gen) {
    g.Valid() && Contains(blocks, g)
  }

  /** The code at the insert point of g, once everything has been generated. */
  function At(blocks: seq<Code>, g: Gen): Code
    requires Contains(blocks, g) && g.cur < |g.blocks|
  {
    blocks[g.cur][|g.blocks[g.cur]|..]
  }

  ghost predicate Reaches(c: Config, k: Code, st: State) {
    c.Running? && c.code == k && c.st == st
  }

  /** A run from c ends as the outcome says, with `k` the code after a normal end; for a
      time-out it is still under way after `fuel` steps. */
  ghost predicate Simulates(blocks: seq<Code>, world: World, c: Config, o: Outcome, k: Code, fuel: nat) {
    match o
    case Normal(st) => exists n: nat :: Reaches(Run(blocks, c, world, n), k, st)
    case Returned(v, st) => exists n: nat :: Run(blocks, c, world, n) == Halted(v, st)
    case Wrong => exists n: nat :: Run(blocks, c, world, n) == Stuck
    case TimeOut => Run(blocks, c, world, fuel).Running?
  }

  lemma StillRunning(blocks: seq<Code>, world: World, c: Config, m: nat, n: nat)
    requires m <= n && Run(blocks, c, world, n).Running?
    ensures Run(blocks, c, world, m).Running?
  {
    if !Run(blocks, c, world, m).Running? {
      EndIsUnique(blocks, c, world, m, n);
    }
  }

  /** n steps lead from c to c1; then c does what c1 does, with n steps to spare. */
  lemma Glue(blocks: seq<Code>, world: World, c: Config, n: nat, c1: Config, o: Outcome, k: Code, fuel: nat, fuel': nat)
    requires Run(blocks, c, world, n) == c1
    requires Simulates(blocks, world, c1, o, k, fuel) && fuel' <= fuel + n
    ensures Simulates(blocks, world, c, o, k, fuel')
  {
    match o {
      case Normal(st) =>
        var m: nat :| Reaches(Run(blocks, c1, world, m), k, st);
        RunAdds(blocks, c, world, n, m);
        assert Reaches(Run(blocks, c, world, n + m), k, st);
      case Returned(v, st) =>
        var m: nat :| Run(blocks, c1, world, m) == Halted(v, st);
        RunAdds(blocks, c, world, n, m);
        assert Run(blocks, c, world, n + m) == Halted(v, st);
      case Wrong =>
        var m: nat :| Run(blocks, c1, world, m) == Stuck;
        RunAdds(blocks, c, world, n, m);
        assert Run(blocks, c, world, n + m) == Stuck;
      case TimeOut =>
        RunAdds(blocks, c, world, n, fuel);
        StillRunning(blocks, world, c, fuel', n + fuel);
    }
  }

  /** c does something normal and goes on at k1. */
  lemma Normally(blocks: seq<Code>, world: World, c: Config, st: State, k: Code, fuel: nat) returns (n: nat, regs: Regs)
    requires Simulates(blocks, world, c, Normal(st), k, fuel)
    ensures Run(blocks, c, world, n) == Running(k, regs, st)
  {
    n :| Reaches(Run(blocks, c, world, n), k, st);
    regs := Run(blocks, c, world, n).regs;
  }

  /** First o1, which on a normal end goes on at k1, and then o from there. */
  lemma InSequence(blocks: seq<Code>, world: World, c: Config, o1: Outcome, k1: Code, o: Outcome, k: Code, fuel: nat)
    requires Simulates(blocks, world, c, o1, k1, fuel)
    requires o1.Normal? ==> forall regs :: Simulates(blocks, world, Running(k1, regs, o1.st), o, k, fuel)
    requires !o1.Normal? ==> o == o1
    ensures Simulates(blocks, world, c, o, k, fuel)
  {
    if o1.Normal? {
      var n, regs := Normally(blocks, world, c, o1.st, k1, fuel);
      Glue(blocks, world, c, n, Running(k1, regs, o1.st), o, k, fuel, fuel);
    }
  }

  lemma ContainsOlder(blocks: seq<Code>, g: Gen, g': Gen)
    requires Grows(g, g') && Contains(blocks, g')
    ensures Contains(blocks, g)
  {
    forall b | 0 <= b < |g.blocks| ensures g.blocks[b] <= blocks[b] {
      assert g.blocks[b] <= g'.blocks[b] <= blocks[b];
    }
  }

  ghost predicate Within(g: Gen, g': Gen) {
    |g.blocks| <= |g'.blocks| && forall b :: 0 <= b < |g.blocks| ==> g.blocks[b] <= g'.blocks[b]
  }

  lemma GrowsWithin(g: Gen, g': Gen)
    requires Grows(g, g')
    ensures Within(g, g')
  {
  }

  lemma ContainsPrefix(blocks: seq<Code>, g: Gen, g': Gen)
    requires Within(g, g') && Contains(blocks, g')
    ensures Contains(blocks, g)
  {
    forall b | 0 <= b < |g.blocks| ensures g.blocks[b] <= blocks[b] {
      assert g.blocks[b] <= g'.blocks[b] <= blocks[b];
    }
  }

  lemma PrefixDrop(a: Code, b: Code, c: Code)
    requires a + b <= c
    ensures a <= c && c[|a|..] == b + c[|a + b|..]
  {
  }

  /** Code found at the insert point is what runs there. */
  lemma AtAppended(blocks: seq<Code>, g: Gen, code: Code)
    requires Contains(blocks, g) && g.cur < |g.blocks| && g.blocks[g.cur] + code <= blocks[g.cur]
    ensures At(blocks, g) == code + blocks[g.cur][|g.blocks[g.cur] + code|..]
  {
    PrefixDrop(g.blocks[g.cur], code, blocks[g.cur]);
  }

  /** Runs the code em, which stands at the insert point of g, and reaches what follows. */
  lemma RunEmitted(
    blocks: seq<Code>, world: World, g: Gen, e: Expr, funcs: Functions, em: Emitted, more: Code,
    regs: Regs, st: State) returns (regs': Regs)
    requires LowerExpr(e, g.scopes, funcs, g.next) == Some(em)
    requires Contains(blocks, g) && g.cur < |g.blocks| && g.blocks[g.cur] + em.code + more <= blocks[g.cur]
    ensures var k := more + blocks[g.cur][|g.blocks[g.cur] + em.code + more|..];
            && At(blocks, g) == em.code + k
            && Computes(blocks, em.code, k, regs, st, world, g.next, Eval(e, st, world), em.tv.value, regs')
  {
    var k := more + blocks[g.cur][|g.blocks[g.cur] + em.code + more|..];
    assert g.blocks[g.cur] + em.code + more == g.blocks[g.cur] + (em.code + more);
    AtAppended(blocks, g, em.code + more);
    assert At(blocks, g) == em.code + k;
    regs' := SimExpr(e, g.scopes, funcs, g.next, em, blocks, k, regs, st, world);
  }

  lemma SimStep(
    step: Option<Expr>, g: Gen, funcs: Functions, blocks: seq<Code>, world: World, regs: Regs, st: State, fuel: nat)
    requires g.Valid() && LowerStep(step, g, funcs).Some?
    requires Contains(blocks, g) && Contains(blocks, LowerStep(step, g, funcs).value)
    ensures Simulates(blocks, world, Running(At(blocks, g), regs, st), ExecStep(step, st, world),
                      At(blocks, LowerStep(step, g, funcs).value), fuel)
  {
    var c := Running(At(blocks, g), regs, st);
    var g' := LowerStep(step, g, funcs).value;
    match step {
      case None =>
        assert Reaches(Run(blocks, c, world, 0), At(blocks, g'), st);
      case Some(e) =>
        var em := LowerExpr(e, g.scopes, funcs, g.next).value;
        var regs' := RunEmitted(blocks, world, g, e, funcs, em, [], regs, st);
        assert g.blocks[g.cur] + em.code + [] == g'.blocks[g.cur];
        assert [] + At(blocks, g') == At(blocks, g');
        match Eval(e, st, world) {
          case Undefined => assert Run(blocks, c, world, |em.code|) == Stuck;
          case Evaluated(_, st1) => assert Reaches(Run(blocks, c, world, |em.code|), At(blocks, g'), st1);
        }
    }
  }

  /** A variable without an initialiser is 0, or false, in the source and in the code. */
  lemma DefaultIsZero(def: VariableDef, g: Gen, funcs: Functions, st: State, world: World)
    requires g.Valid() && def.init.None? && def.declared.Some? && LowerDef(def, g, funcs).Some?
    ensures var zero := if def.declared.value == BoolT then BoolV(false) else IntV(def.declared.value.width, 0);
      Define(def, st, world) == Normal(st.(store := st.store[def.slot := zero]))
      && LowerDef(def, g, funcs).value.blocks[g.cur] == g.blocks[g.cur] + [StoreTo(Constant(zero), def.slot)]
  {
    assert g.blocks[g.cur] + [] == g.blocks[g.cur];
  }

  lemma SimDef(
    def: VariableDef, g: Gen, funcs: Functions, blocks: seq<Code>, world: World, regs: Regs, st: State, fuel: nat)
    requires g.Valid() && LowerDef(def, g, funcs).Some?
    requires Contains(blocks, g) && Contains(blocks, LowerDef(def, g, funcs).value)
    ensures Simulates(blocks, world, Running(At(blocks, g), regs, st), Define(def, st, world),
                      At(blocks, LowerDef(def, g, funcs).value), fuel)
  {
    var c := Running(At(blocks, g), regs, st);
    var g' := LowerDef(def, g, funcs).value;
    var k := At(blocks, g');
    match def.init {
      case None =>
        var store := StoreTo(Constant(ZeroOf(def.declared.value)), def.slot);
        assert g.blocks[g.cur] + [] == g.blocks[g.cur];
        assert g'.blocks[g.cur] == g.blocks[g.cur] + [store];
        AtAppended(blocks, g, [store]);
        RunLast(blocks, store, k, regs, st, world);
        assert Reaches(Run(blocks, c, world, 1), k, Define(def, st, world).st);
      case Some(e) =>
        var em := LowerExpr(e, g.scopes, funcs, g.next).value;
        var store := StoreTo(em.tv.value, def.slot);
        assert g'.blocks[g.cur] == g.blocks[g.cur] + em.code + [store];
        var regs' := RunEmitted(blocks, world, g, e, funcs, em, [store], regs, st);
        match Eval(e, st, world) {
          case Undefined => assert Run(blocks, c, world, |em.code|) == Stuck;
          case Evaluated(_, st1) =>
            RunLast(blocks, store, k, regs', st1, world);
            RunAdds(blocks, c, world, |em.code|, 1);
            assert Reaches(Run(blocks, c, world, |em.code| + 1), k, Define(def, st, world).st);
        }
    }
  }

  lemma SimInit(
    init: Option<VariableDef>, g: Gen, funcs: Functions, blocks: seq<Code>, world: World, regs: Regs, st: State, fuel: nat)
    requires g.Valid() && LowerInit(init, g, funcs).Some?
    requires Contains(blocks, g) && Contains(blocks, LowerInit(init, g, funcs).value)
    ensures Simulates(blocks, world, Running(At(blocks, g), regs, st), ExecInit(init, st, world),
                      At(blocks, LowerInit(init, g, funcs).value), fuel)
  {
    match init {
      case None => assert Reaches(Run(blocks, Running(At(blocks, g), regs, st), world, 0), At(blocks, g), st);
      case Some(def) => SimDef(def, g, funcs, blocks, world, regs, st, fuel);
    }
  }

  lemma SimReturn(
    r: Option<Expr>, g: Gen, funcs: Functions, returnType: Ty, blocks: seq<Code>, world: World,
    regs: Regs, st: State, k: Code, fuel: nat)
    requires g.Valid() && LowerReturn(r, g, funcs, returnType).Some?
    requires Contains(blocks, g) && Contains(blocks, LowerReturn(r, g, funcs, returnType).value)
    ensures Simulates(blocks, world, Running(At(blocks, g), regs, st), ExecReturn(r, st, world), k, fuel)
  {
    var c := Running(At(blocks, g), regs, st);
    match r {
      case None =>
        AtAppended(blocks, g, [RetVoid]);
        RunLast(blocks, RetVoid, blocks[g.cur][|g.blocks[g.cur] + [RetVoid]|..], regs, st, world);
        assert Run(blocks, c, world, 1) == Halted(VoidV, st);
      case Some(e) =>
        var em := LowerExpr(e, g.scopes, funcs, g.next).value;
        assert LowerReturn(r, g, funcs, returnType).value.blocks[g.cur] == g.blocks[g.cur] + em.code + [Ret(em.tv.value)];
        RunReturn(blocks, world, g, e, funcs, em, regs, st, k, fuel);
    }
  }

  lemma RunReturn(
    blocks: seq<Code>, world: World, g: Gen, e: Expr, funcs: Functions, em: Emitted, regs: Regs, st: State, k: Code, fuel: nat)
    requires LowerExpr(e, g.scopes, funcs, g.next) == Some(em)
    requires Contains(blocks, g) && g.cur < |g.blocks| && g.blocks[g.cur] + em.code + [Ret(em.tv.value)] <= blocks[g.cur]
    ensures Simulates(blocks, world, Running(At(blocks, g), regs, st), ExecReturn(Some(e), st, world), k, fuel)
  {
    var c := Running(At(blocks, g), regs, st);
    var ret := Ret(em.tv.value);
    var regs' := RunEmitted(blocks, world, g, e, funcs, em, [ret], regs, st);
    match Eval(e, st, world) {
      case Undefined => assert Run(blocks, c, world, |em.code|) == Stuck;
      case Evaluated(v, st1) =>
        RunLast(blocks, ret, blocks[g.cur][|g.blocks[g.cur] + em.code + [ret]|..], regs', st1, world);
        RunAdds(blocks, c, world, |em.code|, 1);
        assert Run(blocks, c, world, |em.code| + 1) == Halted(v, st1);
    }
  }

  /** An unconditional branch at the insert point of g. */
  lemma RunBranch(blocks: seq<Code>, world: World, g: Gen, target: nat, regs: Regs, st: State)
    requires Contains(blocks, g) && g.cur < |g.blocks| && g.blocks[g.cur] + [Br(target)] <= blocks[g.cur]
    requires target < |blocks|
    ensures Run(blocks, Running(At(blocks, g), regs, st), world, 1) == Running(blocks[target], regs, st)
  {
    AtAppended(blocks, g, [Br(target)]);
    RunLast(blocks, Br(target), blocks[g.cur][|g.blocks[g.cur] + [Br(target)]|..], regs, st, world);
  }

  /** Where the branch on a condition leads. */
  function BranchEnd(r: EvalResult, ifTrue: Code, ifFalse: Code, regs: Regs): Config {
    match r
    case Evaluated(BoolV(b), st) => Running(if b then ifTrue else ifFalse, regs, st)
    case _ => Stuck
  }

  /** A condition and the branch on it: at least one step, to the block the condition selects. */
  lemma RunCondition(
    blocks: seq<Code>, world: World, g: Gen, e: Expr, funcs: Functions, em: Emitted,
    ifTrue: nat, ifFalse: nat, regs: Regs, st: State) returns (regs': Regs, n: nat)
    requires LowerExpr(e, g.scopes, funcs, g.next) == Some(em)
    requires Contains(blocks, g) && g.cur < |g.blocks| && ifTrue < |blocks| && ifFalse < |blocks|
    requires g.blocks[g.cur] + em.code + [CondBr(em.tv.value, ifTrue, ifFalse)] <= blocks[g.cur]
    ensures n >= 1
    ensures Run(blocks, Running(At(blocks, g), regs, st), world, n)
         == BranchEnd(Eval(e, st, world), blocks[ifTrue], blocks[ifFalse], regs')
  {
    hide LowerExpr, Eval;
    var br := CondBr(em.tv.value, ifTrue, ifFalse);
    var c := Running(At(blocks, g), regs, st);
    regs' := RunEmitted(blocks, world, g, e, funcs, em, [br], regs, st);
    n := |em.code| + 1;
    RunAdds(blocks, c, world, |em.code|, 1);
    match Eval(e, st, world) {
      case Undefined => StuckStays(blocks, world, 1);
      case Evaluated(v, st1) =>
        RunLast(blocks, br, blocks[g.cur][|g.blocks[g.cur] + em.code + [br]|..], regs', st1, world);
    }
  }

  lemma {:induction false} SimStmt(
    s: Stmt, g: Gen, funcs: Functions, returnType: Ty, blocks: seq<Code>, world: World, regs: Regs, st: State, fuel: nat)
    requires g.Valid() && LowerStmt(s, g, funcs, returnType).Some?
    requires Contains(blocks, g) && Contains(blocks, LowerStmt(s, g, funcs, returnType).value)
    ensures Simulates(blocks, world, Running(At(blocks, g), regs, st), Exec(s, st, world, fuel),
                      At(blocks, LowerStmt(s, g, funcs, returnType).value), fuel)
    decreases fuel, s, 2
  {
    match s {
      case EmptyStmt =>
        assert Reaches(Run(blocks, Running(At(blocks, g), regs, st), world, 0), At(blocks, g), st);
      case ExprStmt(e) => SimStep(Some(e), g, funcs, blocks, world, regs, st, fuel);
      case DefStmt(def) => SimDef(def, g, funcs, blocks, world, regs, st, fuel);
      case BlockStmt(nodes) => SimAll(nodes, g.AddScope(), funcs, returnType, blocks, world, regs, st, fuel);
      case IfStmt(_, _, _) => SimIf(s, g, funcs, returnType, blocks, world, regs, st, fuel);
      case WhileStmt(_, _) => SimWhile(s, g, funcs, returnType, blocks, world, regs, st, fuel);
      case ForStmt(_, _, _, _) => SimFor(s, g, funcs, returnType, blocks, world, regs, st, fuel);
      case ReturnStmt(r) => SimReturn(r, g, funcs, returnType, blocks, world, regs, st,
                                        At(blocks, LowerReturn(r, g, funcs, returnType).value), fuel);
    }
  }

  lemma {:induction false} SimAll(
    ss: seq<Stmt>, g: Gen, funcs: Functions, returnType: Ty, blocks: seq<Code>, world: World, regs: Regs, st: State, fuel: nat)
    requires g.Valid() && LowerAll(ss, g, funcs, returnType).Some?
    requires Contains(blocks, g) && Contains(blocks, LowerAll(ss, g, funcs, returnType).value)
    ensures Simulates(blocks, world, Running(At(blocks, g), regs, st), ExecAll(ss, st, world, fuel),
                      At(blocks, LowerAll(ss, g, funcs, returnType).value), fuel)
    decreases fuel, ss
  {
    var c := Running(At(blocks, g), regs, st);
    if ss == [] {
      assert Reaches(Run(blocks, c, world, 0), At(blocks, g), st);
    } else {
      var g1 := LowerStmt(ss[0], g, funcs, returnType).value;
      var g2 := LowerAll(ss[1..], g1, funcs, returnType).value;
      GrowsAll(ss[1..], g1, funcs, returnType);
      ContainsOlder(blocks, g1, g2);
      SimStmt(ss[0], g, funcs, returnType, blocks, world, regs, st, fuel);
      var o1 := Exec(ss[0], st, world, fuel);
      var o := ExecAll(ss, st, world, fuel);
      forall regs1 | o1.Normal?
        ensures Simulates(blocks, world, Running(At(blocks, g1), regs1, o1.st), o, At(blocks, g2), fuel)
      {
        SimAll(ss[1..], g1, funcs, returnType, blocks, world, regs1, o1.st, fuel);
      }
      InSequence(blocks, world, c, o1, At(blocks, g1), o, At(blocks, g2), fuel);
    }
  }

  /** Code that ends with a branch to `target`. */
  lemma ThenBranch(blocks: seq<Code>, world: World, c: Config, o: Outcome, g: Gen, target: nat, fuel: nat)
    requires Contains(blocks, g) && g.cur < |g.blocks| && g.blocks[g.cur] + [Br(target)] <= blocks[g.cur]
    requires target < |blocks| && Simulates(blocks, world, c, o, At(blocks, g), fuel)
    ensures Simulates(blocks, world, c, o, blocks[target], fuel)
  {
    if o.Normal? {
      var n, regs := Normally(blocks, world, c, o.st, At(blocks, g), fuel);
      RunBranch(blocks, world, g, target, regs, o.st);
      RunAdds(blocks, c, world, n, 1);
      assert Reaches(Run(blocks, c, world, n + 1), blocks[target], o.st);
    }
  }

  /** What the finished function holds of an if statement. */
  ghost predicate IfLayout(g: Gen, cond: Emitted, elseExists: bool, g0: Gen, g1: Gen, g2: Gen, g3: Gen, blocks: seq<Code>) {
    var (thenBB, elseBB, mergeBB) := (|g.blocks|, |g.blocks| + 1, |g.blocks| + 2);
    && Holds(blocks, g) && Holds(blocks, g0) && Holds(blocks, g1) && mergeBB < |blocks|
    && g.blocks[g.cur] + cond.code + [CondBr(cond.tv.value, thenBB, if elseExists then elseBB else mergeBB)] <= blocks[g.cur]
    && blocks[thenBB] == At(blocks, g0)
    && g1.blocks[g1.cur] + [Br(mergeBB)] <= blocks[g1.cur]
    && (elseExists ==>
          && Holds(blocks, g2) && Holds(blocks, g3)
          && blocks[elseBB] == At(blocks, g2)
          && g3.blocks[g3.cur] + [Br(mergeBB)] <= blocks[g3.cur])
  }

  ghost predicate IsIf(
    s: Stmt, g: Gen, cond: Emitted, g0: Gen, g1: Gen, g2: Gen, g3: Gen, funcs: Functions, returnType: Ty, blocks: seq<Code>)
    requires s.IfStmt?
  {
    && IfLayout(g, cond, s.elseBlock != EmptyStmt, g0, g1, g2, g3, blocks)
    && LowerExpr(s.condition, g.AddScope().scopes, funcs, g.next) == Some(cond)
    && LowerStmt(s.ifBlock, g0, funcs, returnType) == Some(g1)
    && (s.elseBlock != EmptyStmt ==> LowerStmt(s.elseBlock, g2, funcs, returnType) == Some(g3))
  }

  /** How the blocks of an if with an else grow into the final ones. */
  lemma IfElseGrowth(g: Gen, cond: Emitted, g0: Gen, g1: Gen, g2: Gen, g3: Gen, g': Gen)
    requires g.Valid() && g1.Valid() && g3.Valid()
    requires g0 == BeginIf(g.AddScope().Emit(cond), cond.tv.value, true)
    requires Grows(g0, g1) && |g.blocks| + 2 < |g1.blocks|
    requires g2 == BranchTo(g1, |g.blocks| + 2).Insert(|g.blocks| + 1).SetInsertPoint(|g.blocks| + 1)
    requires Grows(g2, g3)
    requires g'.blocks == BranchTo(g3, |g.blocks| + 2).blocks
    ensures Within(g0, g1) && Within(g1, g2) && Within(g2, g3) && Within(g3, g')
    ensures g0.blocks[g.cur] == g.blocks[g.cur] + cond.code + [CondBr(cond.tv.value, |g.blocks|, |g.blocks| + 1)]
    ensures g0.blocks[|g.blocks|] == [] && g2.blocks[|g.blocks| + 1] == [] && g'.blocks[|g.blocks| + 2] == []
    ensures g2.blocks[g1.cur] == g1.blocks[g1.cur] + [Br(|g.blocks| + 2)]
    ensures g'.blocks[g3.cur] == g3.blocks[g3.cur] + [Br(|g.blocks| + 2)]
  {
    GrowsIf(g, cond, true);
    GrowsWithin(g0, g1);
    GrowsWithin(g2, g3);
  }

  lemma IfElseLayout(g: Gen, cond: Emitted, g0: Gen, g1: Gen, g2: Gen, g3: Gen, g': Gen, blocks: seq<Code>)
    requires g.Valid() && g1.Valid() && g3.Valid()
    requires g0 == BeginIf(g.AddScope().Emit(cond), cond.tv.value, true)
    requires Grows(g0, g1) && |g.blocks| + 2 < |g1.blocks|
    requires g2 == BranchTo(g1, |g.blocks| + 2).Insert(|g.blocks| + 1).SetInsertPoint(|g.blocks| + 1)
    requires Grows(g2, g3)
    requires g'.blocks == BranchTo(g3, |g.blocks| + 2).blocks && g'.cur == |g.blocks| + 2
    requires Contains(blocks, g) && Contains(blocks, g')
    ensures IfLayout(g, cond, true, g0, g1, g2, g3, blocks) && blocks[|g.blocks| + 2] == At(blocks, g')
  {
    IfElseGrowth(g, cond, g0, g1, g2, g3, g');
    ContainsPrefix(blocks, g3, g');
    ContainsPrefix(blocks, g2, g3);
    ContainsPrefix(blocks, g1, g2);
    ContainsPrefix(blocks, g0, g1);
  }

  lemma IfOnlyLayout(g: Gen, cond: Emitted, g0: Gen, g1: Gen, g': Gen, blocks: seq<Code>)
    requires g.Valid() && g1.Valid()
    requires g0 == BeginIf(g.AddScope().Emit(cond), cond.tv.value, false)
    requires Grows(g0, g1) && |g.blocks| + 2 < |g1.blocks|
    requires g'.blocks == BranchTo(g1, |g.blocks| + 2).blocks && g'.cur == |g.blocks| + 2
    requires Contains(blocks, g) && Contains(blocks, g')
    ensures IfLayout(g, cond, false, g0, g1, g1, g1, blocks) && blocks[|g.blocks| + 2] == At(blocks, g')
  {
    GrowsIf(g, cond, false);
    GrowsWithin(g0, g1);
    assert g0.blocks[|g.blocks| + 2] == g1.blocks[|g.blocks| + 2] == [];
    assert Within(g1, g');
    ContainsPrefix(blocks, g1, g');
    ContainsPrefix(blocks, g0, g1);
  }

  lemma IfBlocks(s: Stmt, g: Gen, funcs: Functions, returnType: Ty, blocks: seq<Code>)
    returns (cond: Emitted, g0: Gen, g1: Gen, g2: Gen, g3: Gen)
    requires g.Valid() && s.IfStmt? && LowerIf(s, g, funcs, returnType).Some?
    requires Contains(blocks, g) && Contains(blocks, LowerIf(s, g, funcs, returnType).value)
    ensures IsIf(s, g, cond, g0, g1, g2, g3, funcs, returnType, blocks)
    ensures blocks[|g.blocks| + 2] == At(blocks, LowerIf(s, g, funcs, returnType).value)
  {
    cond, g0, g1, g2, g3 := IfParts(s, g, funcs, returnType);
    var g' := LowerIf(s, g, funcs, returnType).value;
    GrowsStmt(s.ifBlock, g0, funcs, returnType);
    if s.elseBlock != EmptyStmt {
      GrowsStmt(s.elseBlock, g2, funcs, returnType);
      IfElseLayout(g, cond, g0, g1, g2, g3, g', blocks);
    } else {
      IfOnlyLayout(g, cond, g0, g1, g', blocks);
    }
  }

  lemma {:induction false} SimIf(
    s: Stmt, g: Gen, funcs: Functions, returnType: Ty, blocks: seq<Code>, world: World, regs: Regs, st: State, fuel: nat)
    requires g.Valid() && s.IfStmt? && LowerIf(s, g, funcs, returnType).Some?
    requires Contains(blocks, g) && Contains(blocks, LowerIf(s, g, funcs, returnType).value)
    ensures Simulates(blocks, world, Running(At(blocks, g), regs, st), Exec(s, st, world, fuel),
                      At(blocks, LowerIf(s, g, funcs, returnType).value), fuel)
    decreases fuel, s, 1
  {
    var cond, g0, g1, g2, g3 := IfBlocks(s, g, funcs, returnType, blocks);
    SimIfBlocks(s, g, cond, g0, g1, g2, g3, funcs, returnType, blocks, world, regs, st, fuel);
  }

  lemma {:induction false} SimIfBlocks(
    s: Stmt, g: Gen, cond: Emitted, g0: Gen, g1: Gen, g2: Gen, g3: Gen, funcs: Functions, returnType: Ty,
    blocks: seq<Code>, world: World, regs: Regs, st: State, fuel: nat)
    requires s.IfStmt? && IsIf(s, g, cond, g0, g1, g2, g3, funcs, returnType, blocks)
    ensures Simulates(blocks, world, Running(At(blocks, g), regs, st), Exec(s, st, world, fuel), blocks[|g.blocks| + 2], fuel)
    decreases fuel, s, 0
  {
    var (thenBB, elseBB, mergeBB) := (|g.blocks|, |g.blocks| + 1, |g.blocks| + 2);
    var elseExists := s.elseBlock != EmptyStmt;
    var c := Running(At(blocks, g), regs, st);
    var k := blocks[mergeBB];
    var regs1, n := RunCondition(blocks, world, g.AddScope(), s.condition, funcs, cond, thenBB,
                                 if elseExists then elseBB else mergeBB, regs, st);
    match Eval(s.condition, st, world) {
      case Evaluated(BoolV(true), st1) =>
        var c1 := Running(blocks[thenBB], regs1, st1);
        var o := Exec(s.ifBlock, st1, world, fuel);
        SimStmt(s.ifBlock, g0, funcs, returnType, blocks, world, regs1, st1, fuel);
        ThenBranch(blocks, world, c1, o, g1, mergeBB, fuel);
        Glue(blocks, world, c, n, c1, o, k, fuel, fuel);
      case Evaluated(BoolV(false), st1) =>
        if elseExists {
          var c1 := Running(blocks[elseBB], regs1, st1);
          var o := Exec(s.elseBlock, st1, world, fuel);
          SimStmt(s.elseBlock, g2, funcs, returnType, blocks, world, regs1, st1, fuel);
          ThenBranch(blocks, world, c1, o, g3, mergeBB, fuel);
          Glue(blocks, world, c, n, c1, o, k, fuel, fuel);
        } else {
          assert Reaches(Run(blocks, c, world, n), k, st1);
        }
      case _ =>
    }
  }

  /** The blocks of a loop: the condition at gc, the body from g0 to g1, the step from gs to
      gt, then back to block condBB, or out to endBB. A while loop has no step block. */
  datatype LoopBlocks =
    LoopBlocks(gc: Gen, cond: Emitted, g0: Gen, g1: Gen, stepBlock: bool, gs: Gen, gt: Gen, condBB: nat, endBB: nat)

  ghost predicate IsLoop(
    l: LoopBlocks, c: Expr, step: Option<Expr>, body: Stmt, funcs: Functions, returnType: Ty, blocks: seq<Code>)
  {
    && LoopLayout(l, blocks)
    && LowerExpr(c, l.gc.scopes, funcs, l.gc.next) == Some(l.cond)
    && LowerStmt(body, l.g0, funcs, returnType) == Some(l.g1)
    && LowerStep(step, l.gs, funcs) == Some(l.gt)
  }

  /** From the end of the body through the step back to the condition. */
  lemma SimLatch(
    l: LoopBlocks, c: Expr, step: Option<Expr>, body: Stmt, funcs: Functions, returnType: Ty,
    blocks: seq<Code>, world: World, regs: Regs, st: State, fuel: nat)
    requires IsLoop(l, c, step, body, funcs, returnType, blocks)
    ensures Simulates(blocks, world, Running(At(blocks, l.g1), regs, st), ExecStep(step, st, world), blocks[l.condBB], fuel)
  {
    var c1 := Running(At(blocks, l.gs), regs, st);
    SimStep(step, l.gs, funcs, blocks, world, regs, st, fuel);
    ThenBranch(blocks, world, c1, ExecStep(step, st, world), l.gt, l.condBB, fuel);
    if l.stepBlock {
      RunBranch(blocks, world, l.g1, l.gs.cur, regs, st);
      Glue(blocks, world, Running(At(blocks, l.g1), regs, st), 1, c1, ExecStep(step, st, world), blocks[l.condBB], fuel, fuel);
    }
  }

  /** The step and the iterations after it. */
  function Again(c: Expr, step: Option<Expr>, body: Stmt, st: State, world: World, fuel: nat): Outcome {
    match ExecStep(step, st, world)
    case Normal(st1) => Loop(c, step, body, st1, world, fuel)
    case o => o
  }

  /** One iteration and the ones after it. */
  function Iterate(c: Expr, step: Option<Expr>, body: Stmt, st: State, world: World, fuel: nat): Outcome {
    match Exec(body, st, world, fuel)
    case Normal(st1) => Again(c, step, body, st1, world, fuel)
    case o => o
  }

  /** How a loop goes on after its condition. */
  function AfterCondition(r: EvalResult, again: Outcome): Outcome {
    match r
    case Evaluated(BoolV(b), st) => if b then again else Normal(st)
    case _ => Wrong
  }

  function StateOf(r: EvalResult, st: State): State {
    if r.Evaluated? then r.st else st
  }

  lemma LoopUnfolds(c: Expr, step: Option<Expr>, body: Stmt, st: State, world: World, fuel: nat)
    requires fuel > 0
    ensures var r := Eval(c, st, world);
            Loop(c, step, body, st, world, fuel)
            == AfterCondition(r, Iterate(c, step, body, StateOf(r, st), world, fuel - 1))
  {
  }

  /** From `head` the condition c is tested, in at least one step, and control goes to `body` or `exit`. */
  ghost predicate Tests(blocks: seq<Code>, world: World, head: Code, body: Code, exit: Code, c: Expr) {
    forall regs, st :: TestRuns(blocks, world, head, body, exit, c, regs, st)
  }

  ghost predicate TestRuns(
    blocks: seq<Code>, world: World, head: Code, body: Code, exit: Code, c: Expr, regs: Regs, st: State)
  {
    exists n: nat, regs' :: n >= 1 &&
      Run(blocks, Running(head, regs, st), world, n) == BranchEnd(Eval(c, st, world), body, exit, regs')
  }

  /** From `after` the step is done and control goes to `head`. */
  ghost predicate Latches(blocks: seq<Code>, world: World, after: Code, head: Code, step: Option<Expr>) {
    forall regs, st, fuel: nat ::
      Simulates(blocks, world, Running(after, regs, st), ExecStep(step, st, world), head, fuel)
  }

  lemma LoopTests(
    l: LoopBlocks, c: Expr, step: Option<Expr>, body: Stmt, funcs: Functions, returnType: Ty,
    blocks: seq<Code>, world: World)
    requires IsLoop(l, c, step, body, funcs, returnType, blocks)
    ensures Tests(blocks, world, blocks[l.condBB], At(blocks, l.g0), blocks[l.endBB], c)
    ensures Latches(blocks, world, At(blocks, l.g1), blocks[l.condBB], step)
  {
    forall regs, st ensures TestRuns(blocks, world, blocks[l.condBB], At(blocks, l.g0), blocks[l.endBB], c, regs, st) {
      var regs', n := RunCondition(blocks, world, l.gc, c, funcs, l.cond, l.g0.cur, l.endBB, regs, st);
    }
    forall regs, st, fuel: nat
      ensures Simulates(blocks, world, Running(At(blocks, l.g1), regs, st), ExecStep(step, st, world), blocks[l.condBB], fuel)
    {
      SimLatch(l, c, step, body, funcs, returnType, blocks, world, regs, st, fuel);
    }
  }

  /** Every iteration takes at least one step, so a loop that times out is still running. */
  lemma {:induction false} SimLoop(
    c: Expr, step: Option<Expr>, body: Stmt, g0: Gen, g1: Gen, head: Code, exit: Code, funcs: Functions, returnType: Ty,
    blocks: seq<Code>, world: World, regs: Regs, st: State, fuel: nat)
    requires Holds(blocks, g0) && Holds(blocks, g1) && LowerStmt(body, g0, funcs, returnType) == Some(g1)
    requires Tests(blocks, world, head, At(blocks, g0), exit, c) && Latches(blocks, world, At(blocks, g1), head, step)
    ensures Simulates(blocks, world, Running(head, regs, st), Loop(c, step, body, st, world, fuel), exit, fuel)
    decreases fuel, body, 0
  {
    hide Simulates, Tests, Latches, LowerStmt, Loop, Iterate;
    if fuel == 0 {
      LoopWithoutFuel(c, step, body, blocks, world, head, exit, regs, st);
    } else {
      SimRounds(c, step, body, g0, g1, head, exit, funcs, returnType, blocks, world, StateOf(Eval(c, st, world), st), fuel - 1);
      LoopFromTest(c, step, body, blocks, world, head, At(blocks, g0), exit, regs, st, fuel);
    }
  }

  lemma LoopWithoutFuel(
    c: Expr, step: Option<Expr>, body: Stmt, blocks: seq<Code>, world: World, head: Code, exit: Code, regs: Regs, st: State)
    ensures Simulates(blocks, world, Running(head, regs, st), Loop(c, step, body, st, world, 0), exit, 0)
  {
  }

  /** A round of the loop, whatever the test has left in the registers. */
  lemma {:induction false} SimRounds(
    c: Expr, step: Option<Expr>, body: Stmt, g0: Gen, g1: Gen, head: Code, exit: Code, funcs: Functions, returnType: Ty,
    blocks: seq<Code>, world: World, st: State, fuel: nat)
    requires Holds(blocks, g0) && Holds(blocks, g1) && LowerStmt(body, g0, funcs, returnType) == Some(g1)
    requires Tests(blocks, world, head, At(blocks, g0), exit, c) && Latches(blocks, world, At(blocks, g1), head, step)
    ensures forall regs ::
      Simulates(blocks, world, Running(At(blocks, g0), regs, st), Iterate(c, step, body, st, world, fuel), exit, fuel)
    decreases fuel, body, 4
  {
    hide Simulates, Iterate, LowerStmt, Tests, Latches;
    forall regs
      ensures Simulates(blocks, world, Running(At(blocks, g0), regs, st), Iterate(c, step, body, st, world, fuel), exit, fuel)
    {
      SimIterate(c, step, body, g0, g1, head, exit, funcs, returnType, blocks, world, regs, st, fuel);
    }
  }

  lemma LoopFromTest(
    c: Expr, step: Option<Expr>, body: Stmt, blocks: seq<Code>, world: World, head: Code, bodyCode: Code, exit: Code,
    regs: Regs, st: State, fuel: nat)
    requires fuel > 0 && Tests(blocks, world, head, bodyCode, exit, c)
    requires var st1 := StateOf(Eval(c, st, world), st);
             forall regs1 :: Simulates(blocks, world, Running(bodyCode, regs1, st1),
                                       Iterate(c, step, body, st1, world, fuel - 1), exit, fuel - 1)
    ensures Simulates(blocks, world, Running(head, regs, st), Loop(c, step, body, st, world, fuel), exit, fuel)
  {
    LoopUnfolds(c, step, body, st, world, fuel);
    var r := Eval(c, st, world);
    var st1 := StateOf(r, st);
    assert TestRuns(blocks, world, head, bodyCode, exit, c, regs, st);
    var n: nat, regs1 :| n >= 1 && Run(blocks, Running(head, regs, st), world, n) == BranchEnd(r, bodyCode, exit, regs1);
    AfterTest(blocks, world, Running(head, regs, st), n, regs1, r, st1, Iterate(c, step, body, st1, world, fuel - 1),
              bodyCode, exit, fuel);
  }

  lemma AfterTest(
    blocks: seq<Code>, world: World, c0: Config, n: nat, regs: Regs, r: EvalResult, st: State, again: Outcome,
    body: Code, k: Code, fuel: nat)
    requires n >= 1 && fuel > 0 && (r.Evaluated? ==> st == r.st)
    requires Run(blocks, c0, world, n) == BranchEnd(r, body, k, regs)
    requires Simulates(blocks, world, Running(body, regs, st), again, k, fuel - 1)
    ensures Simulates(blocks, world, c0, AfterCondition(r, again), k, fuel)
  {
    match r {
      case Evaluated(BoolV(b), st1) =>
        if b {
          Glue(blocks, world, c0, n, Running(body, regs, st1), again, k, fuel - 1, fuel);
        } else {
          assert Reaches(Run(blocks, c0, world, n), k, st1);
        }
      case _ =>
    }
  }

  lemma {:induction false} SimIterate(
    c: Expr, step: Option<Expr>, body: Stmt, g0: Gen, g1: Gen, head: Code, exit: Code, funcs: Functions, returnType: Ty,
    blocks: seq<Code>, world: World, regs: Regs, st: State, fuel: nat)
    requires Holds(blocks, g0) && Holds(blocks, g1) && LowerStmt(body, g0, funcs, returnType) == Some(g1)
    requires Tests(blocks, world, head, At(blocks, g0), exit, c) && Latches(blocks, world, At(blocks, g1), head, step)
    ensures Simulates(blocks, world, Running(At(blocks, g0), regs, st), Iterate(c, step, body, st, world, fuel), exit, fuel)
    decreases fuel, body, 3
  {
    SimStmt(body, g0, funcs, returnType, blocks, world, regs, st, fuel);
    var o1 := Exec(body, st, world, fuel);
    var o := Iterate(c, step, body, st, world, fuel);
    forall regs1 | o1.Normal?
      ensures Simulates(blocks, world, Running(At(blocks, g1), regs1, o1.st), o, exit, fuel)
    {
      SimAgain(c, step, body, g0, g1, head, exit, funcs, returnType, blocks, world, regs1, o1.st, fuel);
    }
    InSequence(blocks, world, Running(At(blocks, g0), regs, st), o1, At(blocks, g1), o, exit, fuel);
  }

  lemma {:induction false} SimAgain(
    c: Expr, step: Option<Expr>, body: Stmt, g0: Gen, g1: Gen, head: Code, exit: Code, funcs: Functions, returnType: Ty,
    blocks: seq<Code>, world: World, regs: Regs, st: State, fuel: nat)
    requires Holds(blocks, g0) && Holds(blocks, g1) && LowerStmt(body, g0, funcs, returnType) == Some(g1)
    requires Tests(blocks, world, head, At(blocks, g0), exit, c) && Latches(blocks, world, At(blocks, g1), head, step)
    ensures Simulates(blocks, world, Running(At(blocks, g1), regs, st), Again(c, step, body, st, world, fuel), exit, fuel)
    decreases fuel, body, 1
  {
    var c0 := Running(At(blocks, g1), regs, st);
    var o1 := ExecStep(step, st, world);
    var o := Again(c, step, body, st, world, fuel);
    assert Simulates(blocks, world, c0, o1, head, fuel);
    forall regs1 | o1.Normal?
      ensures Simulates(blocks, world, Running(head, regs1, o1.st), o, exit, fuel)
    {
      SimLoop(c, step, body, g0, g1, head, exit, funcs, returnType, blocks, world, regs1, o1.st, fuel);
    }
    InSequence(blocks, world, c0, o1, head, o, exit, fuel);
  }

  /** What the finished function holds of a loop, but for what its parts were lowered from. */
  ghost predicate LoopLayout(l: LoopBlocks, blocks: seq<Code>) {
    && Holds(blocks, l.gc) && Holds(blocks, l.g0) && Holds(blocks, l.g1) && Holds(blocks, l.gs) && Holds(blocks, l.gt)
    && l.condBB < |blocks| && l.endBB < |blocks|
    && l.gc.blocks[l.gc.cur] + l.cond.code + [CondBr(l.cond.tv.value, l.g0.cur, l.endBB)] <= blocks[l.gc.cur]
    && blocks[l.condBB] == At(blocks, l.gc)
    && blocks[l.g0.cur] == At(blocks, l.g0)
    && (if l.stepBlock then
          l.g1.blocks[l.g1.cur] + [Br(l.gs.cur)] <= blocks[l.g1.cur] && blocks[l.gs.cur] == At(blocks, l.gs)
        else
          l.gs == l.g1)
    && l.gt.blocks[l.gt.cur] + [Br(l.condBB)] <= blocks[l.gt.cur]
  }

  lemma WhileLayout(g: Gen, gc: Gen, cond: Emitted, g0: Gen, g1: Gen, g': Gen, blocks: seq<Code>)
    requires g.Valid() && g1.Valid() && |g1.scopes| > 1 && |g1.blocks| > |g.blocks| + 1
    requires gc == BranchToNew(g.AddScope()) && g0 == GoToNew(gc.Emit(cond)) && Grows(g0, g1)
    requires g' == EndWhile(g1, cond.tv.value, |g.blocks|, |g.blocks| + 1) && Contains(blocks, g')
    ensures LoopLayout(LoopBlocks(gc, cond, g0, g1, false, g1, g1, |g.blocks|, |g1.blocks|), blocks)
    ensures g.blocks[g.cur] + [Br(|g.blocks|)] <= blocks[g.cur]
    ensures blocks[|g1.blocks|] == At(blocks, g')
  {
    GrowsGoToNew(gc, cond);
    GrowsWithin(gc, g0);
    GrowsWithin(g0, g1);
    assert Within(g1, g');
    ContainsPrefix(blocks, g1, g');
    ContainsPrefix(blocks, g0, g1);
    ContainsPrefix(blocks, gc, g0);
    assert g0.blocks[gc.cur] == g1.blocks[gc.cur];
    assert g'.blocks[gc.cur] == g1.blocks[gc.cur] + [CondBr(cond.tv.value, g0.cur, |g1.blocks|)];
    assert g'.blocks[g1.cur] == g1.blocks[g1.cur] + [Br(|g.blocks|)];
  }

  lemma WhileBlocks(s: Stmt, g: Gen, funcs: Functions, returnType: Ty, blocks: seq<Code>) returns (l: LoopBlocks)
    requires g.Valid() && s.WhileStmt? && LowerWhile(s, g, funcs, returnType).Some?
    requires Contains(blocks, g) && Contains(blocks, LowerWhile(s, g, funcs, returnType).value)
    ensures IsLoop(l, s.condition, None, s.block, funcs, returnType, blocks)
    ensures l.condBB == |g.blocks| && g.blocks[g.cur] + [Br(l.condBB)] <= blocks[g.cur]
    ensures blocks[l.endBB] == At(blocks, LowerWhile(s, g, funcs, returnType).value)
  {
    var gc, cond, g0, g1 := WhileParts(s, g, funcs, returnType);
    GrowsStmt(s.block, g0, funcs, returnType);
    l := LoopBlocks(gc, cond, g0, g1, false, g1, g1, |g.blocks|, |g1.blocks|);
    WhileLayout(g, gc, cond, g0, g1, LowerWhile(s, g, funcs, returnType).value, blocks);
  }

  lemma {:induction false} SimWhile(
    s: Stmt, g: Gen, funcs: Functions, returnType: Ty, blocks: seq<Code>, world: World, regs: Regs, st: State, fuel: nat)
    requires g.Valid() && s.WhileStmt? && LowerWhile(s, g, funcs, returnType).Some?
    requires Contains(blocks, g) && Contains(blocks, LowerWhile(s, g, funcs, returnType).value)
    ensures Simulates(blocks, world, Running(At(blocks, g), regs, st), Exec(s, st, world, fuel),
                      At(blocks, LowerWhile(s, g, funcs, returnType).value), fuel)
    decreases fuel, s, 1
  {
    hide Simulates, Contains, LowerWhile, LowerStmt, Loop, Tests, Latches, Run;
    var l := WhileBlocks(s, g, funcs, returnType, blocks);
    RunBranch(blocks, world, g, l.condBB, regs, st);
    LoopTests(l, s.condition, None, s.block, funcs, returnType, blocks, world);
    SimLoop(s.condition, None, s.block, l.g0, l.g1, blocks[l.condBB], blocks[l.endBB], funcs, returnType,
            blocks, world, regs, st, fuel);
    Glue(blocks, world, Running(At(blocks, g), regs, st), 1, Running(blocks[l.condBB], regs, st),
         Loop(s.condition, None, s.block, st, world, fuel), blocks[l.endBB], fuel, fuel);
  }

  /** How the blocks of a for loop grow, up to where it is closed. */
  lemma ForCode(g: Gen, gi: Gen, gj: Gen, gc: Gen, cond: Emitted, g0: Gen, g1: Gen, gs: Gen, gt: Gen)
    requires g.Valid() && gj.Valid() && g1.Valid()
    requires gi == BranchToNew(g.AddScope()) && Grows(gi, gj) && gj.cur == gi.cur && |gj.blocks| == |gi.blocks|
    requires gc == GoToNew(gj) && g0 == GoToNew(gc.Emit(cond))
    requires Grows(g0, g1) && gs == GoToNew(g1) && Grows(gs, gt) && gt.cur == gs.cur
    ensures Within(g, gi) && Within(gi, gj) && Within(gj, gc) && Within(gc, g0) && Within(g0, g1) && Within(g1, gs) && Within(gs, gt)
    ensures gi.blocks[g.cur] == g.blocks[g.cur] + [Br(|g.blocks|)]
    ensures gi.blocks[gi.cur] == [] && gc.blocks[gc.cur] == [] && g0.blocks[g0.cur] == [] && gs.blocks[gs.cur] == []
    ensures gt.blocks[gc.cur] == cond.code && gt.blocks[gj.cur] == gj.blocks[gj.cur] && gt.blocks[g1.cur] == g1.blocks[g1.cur]
    ensures gc.cur == |g.blocks| + 1 && g0.cur == |g.blocks| + 2 <= g1.cur
  {
    GrowsGoToNew(gc, cond);
    GrowsWithin(gi, gj);
    GrowsWithin(gc, g0);
    GrowsWithin(g0, g1);
    GrowsWithin(gs, gt);
    assert gt.blocks[gc.cur] == gs.blocks[gc.cur] == g1.blocks[gc.cur] == g0.blocks[gc.cur] == [] + cond.code;
    assert gt.blocks[gj.cur] == gs.blocks[gj.cur] == g1.blocks[gj.cur] == g0.blocks[gj.cur];
  }

  /** The branches that close a for loop end up behind the code of their blocks. */
  lemma ForEnds(g: Gen, cond: Operand, initBB: nat, bodyEnd: nat, stepBB: nat)
    requires g.Valid() && |g.scopes| > 1
    requires initBB + 1 < bodyEnd < stepBB < |g.blocks|
    ensures var g' := EndFor(g, cond, initBB, bodyEnd, stepBB);
            && (forall b :: 0 <= b < |g.blocks| ==> g.blocks[b] <= g'.blocks[b])
            && g'.blocks[initBB] == g.blocks[initBB] + [Br(initBB + 1)]
            && g'.blocks[initBB + 1] == g.blocks[initBB + 1] + [CondBr(cond, initBB + 2, |g.blocks|)]
            && g'.blocks[bodyEnd] == g.blocks[bodyEnd] + [Br(stepBB)]
            && g'.blocks[stepBB] == g.blocks[stepBB] + [Br(initBB + 1)]
            && g'.blocks[|g.blocks|] == [] && g'.cur == |g.blocks|
  {
  }

  lemma ForContains(
    g: Gen, gi: Gen, gj: Gen, gc: Gen, cond: Emitted, g0: Gen, g1: Gen, gs: Gen, gt: Gen, g': Gen, blocks: seq<Code>)
    requires g.Valid() && gj.Valid() && g1.Valid() && gt.Valid() && |gt.scopes| > 1
    requires gi == BranchToNew(g.AddScope()) && Grows(gi, gj) && gj.cur == gi.cur && |gj.blocks| == |gi.blocks|
    requires gc == GoToNew(gj) && g0 == GoToNew(gc.Emit(cond))
    requires Grows(g0, g1) && gs == GoToNew(g1) && Grows(gs, gt) && gt.cur == gs.cur && |gt.blocks| == |gs.blocks|
    requires g' == EndFor(gt, cond.tv.value, |g.blocks|, g1.cur, |g1.blocks|) && Contains(blocks, g')
    ensures Contains(blocks, gi) && Contains(blocks, gj) && Contains(blocks, gc) && Contains(blocks, g0)
    ensures Contains(blocks, g1) && Contains(blocks, gs) && Contains(blocks, gt)
  {
    ForCode(g, gi, gj, gc, cond, g0, g1, gs, gt);
    ForEnds(gt, cond.tv.value, |g.blocks|, g1.cur, gs.cur);
    ContainsPrefix(blocks, gt, g');
    ContainsPrefix(blocks, gs, gt);
    ContainsPrefix(blocks, g1, gs);
    ContainsPrefix(blocks, g0, g1);
    ContainsPrefix(blocks, gc, g0);
    ContainsPrefix(blocks, gj, gc);
    ContainsPrefix(blocks, gi, gj);
  }

  /** What the blocks of a closed for loop hold. */
  lemma ForFinal(g: Gen, gj: Gen, gc: Gen, cond: Emitted, g0: Gen, g1: Gen, gs: Gen, gt: Gen, g': Gen)
    requires g.Valid() && g1.Valid() && gt.Valid() && |gt.scopes| > 1
    requires gj.cur == |g.blocks| < |gj.blocks| && gc.cur == |g.blocks| + 1 < |gc.blocks| && g0.cur == |g.blocks| + 2 <= g1.cur
    requires gs.cur == |g1.blocks| == gt.cur
    requires gc.blocks[gc.cur] == [] && gt.blocks[gc.cur] == cond.code
    requires gt.blocks[gj.cur] == gj.blocks[gj.cur] && gt.blocks[g1.cur] == g1.blocks[g1.cur]
    requires g' == EndFor(gt, cond.tv.value, |g.blocks|, g1.cur, |g1.blocks|)
    ensures |g'.blocks| == |gt.blocks| + 1 && g'.cur == |gt.blocks| && g'.blocks[g'.cur] == []
    ensures g'.blocks[gj.cur] == gj.blocks[gj.cur] + [Br(gc.cur)]
    ensures g'.blocks[gc.cur] == gc.blocks[gc.cur] + cond.code + [CondBr(cond.tv.value, g0.cur, g'.cur)]
    ensures g'.blocks[g1.cur] == g1.blocks[g1.cur] + [Br(gs.cur)]
    ensures g'.blocks[gt.cur] == gt.blocks[gt.cur] + [Br(gc.cur)]
  {
    ForEnds(gt, cond.tv.value, |g.blocks|, g1.cur, gs.cur);
    assert [] + cond.code == cond.code;
  }

  lemma ForLayout(
    g: Gen, gi: Gen, gj: Gen, gc: Gen, cond: Emitted, g0: Gen, g1: Gen, gs: Gen, gt: Gen, g': Gen, blocks: seq<Code>)
    requires g.Valid() && gj.Valid() && g1.Valid() && gt.Valid() && |gt.scopes| > 1
    requires gi == BranchToNew(g.AddScope()) && Grows(gi, gj) && gj.cur == gi.cur && |gj.blocks| == |gi.blocks|
    requires gc == GoToNew(gj) && g0 == GoToNew(gc.Emit(cond))
    requires Grows(g0, g1) && gs == GoToNew(g1) && Grows(gs, gt) && gt.cur == gs.cur && |gt.blocks| == |gs.blocks|
    requires g' == EndFor(gt, cond.tv.value, |g.blocks|, g1.cur, |g1.blocks|) && Contains(blocks, g')
    ensures LoopLayout(LoopBlocks(gc, cond, g0, g1, true, gs, gt, |g.blocks| + 1, |gt.blocks|), blocks)
    ensures Holds(blocks, gi) && Holds(blocks, gj)
    ensures g.blocks[g.cur] + [Br(gi.cur)] <= blocks[g.cur] && blocks[gi.cur] == At(blocks, gi)
    ensures gj.blocks[gj.cur] + [Br(|g.blocks| + 1)] <= blocks[gj.cur]
    ensures blocks[|gt.blocks|] == At(blocks, g')
  {
    ForContains(g, gi, gj, gc, cond, g0, g1, gs, gt, g', blocks);
    ForCode(g, gi, gj, gc, cond, g0, g1, gs, gt);
    ForFinal(g, gj, gc, cond, g0, g1, gs, gt, g');
    ForAssembled(gi, gj, gc, cond, g0, g1, gs, gt, g', blocks);
  }

  lemma ForAssembled(
    gi: Gen, gj: Gen, gc: Gen, cond: Emitted, g0: Gen, g1: Gen, gs: Gen, gt: Gen, g': Gen, blocks: seq<Code>)
    requires Holds(blocks, gi) && Holds(blocks, gj) && Holds(blocks, gc) && Holds(blocks, g0) && Holds(blocks, g1)
    requires Holds(blocks, gs) && Holds(blocks, gt) && Holds(blocks, g')
    requires gj.cur < |g'.blocks| && gc.cur < |g'.blocks| && g1.cur < |g'.blocks| && gt.cur < |g'.blocks| && g'.cur == |gt.blocks|
    requires gi.blocks[gi.cur] == [] && gc.blocks[gc.cur] == [] && g0.blocks[g0.cur] == [] && gs.blocks[gs.cur] == []
    requires g'.blocks[g'.cur] == []
    requires g'.blocks[gj.cur] == gj.blocks[gj.cur] + [Br(gc.cur)]
    requires g'.blocks[gc.cur] == gc.blocks[gc.cur] + cond.code + [CondBr(cond.tv.value, g0.cur, g'.cur)]
    requires g'.blocks[g1.cur] == g1.blocks[g1.cur] + [Br(gs.cur)]
    requires g'.blocks[gt.cur] == gt.blocks[gt.cur] + [Br(gc.cur)]
    ensures LoopLayout(LoopBlocks(gc, cond, g0, g1, true, gs, gt, gc.cur, g'.cur), blocks)
    ensures blocks[gi.cur] == At(blocks, gi) && blocks[g'.cur] == At(blocks, g')
    ensures gj.blocks[gj.cur] + [Br(gc.cur)] <= blocks[gj.cur]
  {
  }

  lemma ForBlocks(s: Stmt, g: Gen, funcs: Functions, returnType: Ty, blocks: seq<Code>)
    returns (gi: Gen, gj: Gen, l: LoopBlocks)
    requires g.Valid() && s.ForStmt? && LowerFor(s, g, funcs, returnType).Some?
    requires Contains(blocks, g) && Contains(blocks, LowerFor(s, g, funcs, returnType).value)
    ensures IsLoop(l, s.end, s.step, s.block, funcs, returnType, blocks)
    ensures Holds(blocks, gi) && Holds(blocks, gj) && LowerInit(s.init, gi, funcs) == Some(gj)
    ensures g.blocks[g.cur] + [Br(gi.cur)] <= blocks[g.cur] && blocks[gi.cur] == At(blocks, gi)
    ensures gj.blocks[gj.cur] + [Br(l.condBB)] <= blocks[gj.cur]
    ensures blocks[l.endBB] == At(blocks, LowerFor(s, g, funcs, returnType).value)
  {
    var gc, cond, g0, g1, gs, gt;
    gi, gj, gc, cond, g0, g1, gs, gt := ForParts(s, g, funcs, returnType);
    l := LoopBlocks(gc, cond, g0, g1, true, gs, gt, |g.blocks| + 1, |gt.blocks|);
    InitGrows(s.init, gi, funcs);
    StepGrows(s.step, gs, funcs);
    GrowsStmt(s.block, g0, funcs, returnType);
    ForLayout(g, gi, gj, gc, cond, g0, g1, gs, gt, LowerFor(s, g, funcs, returnType).value, blocks);
  }

  lemma {:induction false} SimFor(
    s: Stmt, g: Gen, funcs: Functions, returnType: Ty, blocks: seq<Code>, world: World, regs: Regs, st: State, fuel: nat)
    requires g.Valid() && s.ForStmt? && LowerFor(s, g, funcs, returnType).Some?
    requires Contains(blocks, g) && Contains(blocks, LowerFor(s, g, funcs, returnType).value)
    ensures Simulates(blocks, world, Running(At(blocks, g), regs, st), Exec(s, st, world, fuel),
                      At(blocks, LowerFor(s, g, funcs, returnType).value), fuel)
    decreases fuel, s, 1
  {
    var gi, gj, l := ForBlocks(s, g, funcs, returnType, blocks);
    RunBranch(blocks, world, g, gi.cur, regs, st);
    var c1 := Running(At(blocks, gi), regs, st);
    SimForFrom(s, gi, gj, l, funcs, returnType, blocks, world, regs, st, fuel);
    Glue(blocks, world, Running(At(blocks, g), regs, st), 1, c1, Exec(s, st, world, fuel), blocks[l.endBB], fuel, fuel);
  }

  /** From the block of the initialisation on. */
  lemma {:induction false} SimForFrom(
    s: Stmt, gi: Gen, gj: Gen, l: LoopBlocks, funcs: Functions, returnType: Ty, blocks: seq<Code>, world: World,
    regs: Regs, st: State, fuel: nat)
    requires s.ForStmt? && IsLoop(l, s.end, s.step, s.block, funcs, returnType, blocks)
    requires Holds(blocks, gi) && Holds(blocks, gj) && LowerInit(s.init, gi, funcs) == Some(gj)
    requires gj.blocks[gj.cur] + [Br(l.condBB)] <= blocks[gj.cur]
    ensures Simulates(blocks, world, Running(At(blocks, gi), regs, st), Exec(s, st, world, fuel), blocks[l.endBB], fuel)
    decreases fuel, s, 0
  {
    var c1 := Running(At(blocks, gi), regs, st);
    var k := blocks[l.endBB];
    var o1 := ExecInit(s.init, st, world);
    var o := Exec(s, st, world, fuel);
    assert o1.Normal? ==> o == Loop(s.end, s.step, s.block, o1.st, world, fuel);
    hide Simulates, Loop, LowerStmt, LowerInit, Contains, Tests, Latches;
    SimInit(s.init, gi, funcs, blocks, world, regs, st, fuel);
    ThenBranch(blocks, world, c1, o1, gj, l.condBB, fuel);
    LoopTests(l, s.end, s.step, s.block, funcs, returnType, blocks, world);
    forall regs1 | o1.Normal?
      ensures Simulates(blocks, world, Running(blocks[l.condBB], regs1, o1.st), o, k, fuel)
    {
      SimLoop(s.end, s.step, s.block, l.g0, l.g1, blocks[l.condBB], k, funcs, returnType,
              blocks, world, regs1, o1.st, fuel);
    }
    InSequence(blocks, world, c1, o1, blocks[l.condBB], o, k, fuel);
  }
}
