/** Every variable a compiled function uses has memory: an alloca at the front of the entry
    block, made before any other instruction runs. */
module VariableMemory {
  import opened Options
  import opened ProgramSyntax
  import opened Ir
  import opened Lowering
  import opened ExprSimulation
  import opened BlockGrowth
  import opened Terminators
  import opened Strip
  import opened CompiledFunction

  /** i may stand behind the allocas, when only the variables in `known` have memory. */
  predicate Backed(i: Instr, known: set<Slot>) {
    match i
    case Alloca(_) => false
    case Load(_, s) => s in known
    case StoreTo(_, s) => s in known
    case _ => true
  }

  ghost predicate CodeBacked(code: Code, known: set<Slot>) {
    forall i :: 0 <= i < |code| ==> Backed(code[i], known)
  }

  ghost predicate ScopesKnown(scopes: seq<Scope>, known: set<Slot>) {
    forall i :: 0 <= i < |scopes| ==> scopes[i].Keys <= known
  }

  /** What has memory so far: the variables with an alloca, and the globals. */
  ghost function Known(g: Gen, globals: set<Slot>): set<Slot> {
    (set s | s in g.allocas) + globals
  }

  /** All code uses variables that have memory, and so do all variables in scope. */
  ghost predicate Housed(g: Gen, globals: set<Slot>) {
    ScopesKnown(g.scopes, Known(g, globals))
    && forall b :: 0 <= b < |g.blocks| ==> CodeBacked(g.blocks[b], Known(g, globals))
  }

  lemma {:induction false} FindKnown(scopes: seq<Scope>, s: Slot, known: set<Slot>)
    requires ScopesKnown(scopes, known) && Find(scopes, s).Some?
    ensures s in known
  {
    if s !in scopes[|scopes| - 1] { FindKnown(scopes[..|scopes| - 1], s, known); }
  }

  lemma CodeJoined(a: Code, b: Code, known: set<Slot>)
    requires CodeBacked(a, known) && CodeBacked(b, known)
    ensures CodeBacked(a + b, known)
  {
  }

  /** The code of an expression uses variables in scope, and its value was loaded from one, if
      it was loaded at all. */
  lemma {:induction false} ExprBacked(e: Expr, scopes: seq<Scope>, funcs: Functions, n: nat, known: set<Slot>)
    requires LowerExpr(e, scopes, funcs, n).Some? && ScopesKnown(scopes, known)
    ensures var em := LowerExpr(e, scopes, funcs, n).value;
      CodeBacked(em.code, known) && (em.tv.value.Loaded? ==> em.tv.value.slot in known)
    decreases e
  {
    match e {
      case Literal(_) =>
      case VariableRef(s) => FindKnown(scopes, s, known);
      case Unary(_, operand) => ExprBacked(operand, scopes, funcs, n, known);
      case Cast(inner, _) => ExprBacked(inner, scopes, funcs, n, known);
      case Binary(_, lhs, rhs) =>
        ExprBacked(lhs, scopes, funcs, n, known);
        ExprBacked(rhs, scopes, funcs, LowerExpr(lhs, scopes, funcs, n).value.next, known);
      case Assignment(_, target, source) => AssignmentBacked(e, scopes, funcs, n, known);
      case Call(_, args) => ArgsBacked(args, scopes, funcs, n, known);
    }
  }

  lemma {:induction false} AssignmentBacked(e: Expr, scopes: seq<Scope>, funcs: Functions, n: nat, known: set<Slot>)
    requires e.Assignment? && LowerExpr(e, scopes, funcs, n).Some? && ScopesKnown(scopes, known)
    ensures var em := LowerExpr(e, scopes, funcs, n).value;
      CodeBacked(em.code, known) && (em.tv.value.Loaded? ==> em.tv.value.slot in known)
    decreases e, 0
  {
    var a := LowerExpr(e.target, scopes, funcs, n).value;
    var b := LowerExpr(e.source, scopes, funcs, a.next).value;
    ExprBacked(e.target, scopes, funcs, n, known);
    ExprBacked(e.source, scopes, funcs, a.next, known);
    CodeJoined(a.code, b.code, known);
    AssignBacked(e.aop, a.tv, b.tv, b.next, known);
    CodeJoined(a.code + b.code, LowerAssign(e.aop, a.tv, b.tv, b.next).value.0, known);
  }

  lemma AssignBacked(op: AssignOp, a: TypedValue, b: TypedValue, n: nat, known: set<Slot>)
    requires LowerAssign(op, a, b, n).Some? && (a.value.Loaded? ==> a.value.slot in known)
    ensures CodeBacked(LowerAssign(op, a, b, n).value.0, known)
  {
  }

  lemma {:induction false} ArgsBacked(args: seq<Expr>, scopes: seq<Scope>, funcs: Functions, n: nat, known: set<Slot>)
    requires LowerArgs(args, scopes, funcs, n).Some? && ScopesKnown(scopes, known)
    ensures CodeBacked(LowerArgs(args, scopes, funcs, n).value.code, known)
    decreases args
  {
    if args != [] {
      ExprBacked(args[0], scopes, funcs, n, known);
      ArgsBacked(args[1..], scopes, funcs, LowerExpr(args[0], scopes, funcs, n).value.next, known);
    }
  }

  // Growing the function.

  lemma HousedAppendTo(g: Gen, b: nat, code: Code, globals: set<Slot>)
    requires Housed(g, globals) && b < |g.blocks| && CodeBacked(code, Known(g, globals))
    ensures Housed(g.AppendTo(b, code), globals)
  {
    CodeJoined(g.blocks[b], code, Known(g, globals));
  }

  lemma HousedEmit(g: Gen, e: Expr, funcs: Functions, globals: set<Slot>)
    requires g.Valid() && Housed(g, globals) && LowerExpr(e, g.scopes, funcs, g.next).Some?
    ensures Housed(g.Emit(LowerExpr(e, g.scopes, funcs, g.next).value), globals)
  {
    ExprBacked(e, g.scopes, funcs, g.next, Known(g, globals));
    HousedAppendTo(g, g.cur, LowerExpr(e, g.scopes, funcs, g.next).value.code, globals);
  }

  lemma HousedBranch(g: Gen, b: nat, i: Instr, globals: set<Slot>)
    requires Housed(g, globals) && b < |g.blocks| && i.IsTerminator()
    ensures Housed(g.AppendTo(b, [i]), globals)
  {
    HousedAppendTo(g, b, [i], globals);
  }

  lemma HousedCreate(g: Gen, globals: set<Slot>)
    requires Housed(g, globals)
    ensures Housed(g.Create(), globals) && Housed(g.CreateInserted(), globals)
  {
  }

  lemma HousedAddScope(g: Gen, globals: set<Slot>)
    requires Housed(g, globals)
    ensures Housed(g.AddScope(), globals)
  {
  }

  lemma HousedRemoveScope(g: Gen, globals: set<Slot>)
    requires Housed(g, globals) && g.scopes != []
    ensures Housed(g.RemoveTopScope(), globals)
  {
  }

  /** A variable gets its alloca before it is declared and stored to. */
  lemma HousedAlloca(g: Gen, s: Slot, globals: set<Slot>)
    requires Housed(g, globals)
    ensures Housed(g.EntryAlloca(s), globals) && s in Known(g.EntryAlloca(s), globals)
  {
    var g1 := g.EntryAlloca(s);
    assert g1.allocas[0] == s;
    forall t | t in g.allocas ensures t in g1.allocas {
      var i :| 0 <= i < |g.allocas| && g.allocas[i] == t;
      assert g1.allocas[i + 1] == t;
    }
    assert Known(g, globals) <= Known(g1, globals);
  }

  lemma HousedDeclare(g: Gen, s: Slot, sym: Symbol, globals: set<Slot>)
    requires g.Valid() && Housed(g, globals) && s in Known(g, globals)
    ensures Housed(g.Declare(s, sym), globals)
  {
  }

  lemma HousedStore(g: Gen, o: Operand, s: Slot, globals: set<Slot>)
    requires g.Valid() && Housed(g, globals) && s in Known(g, globals)
    ensures Housed(g.Append([StoreTo(o, s)]), globals)
  {
    HousedAppendTo(g, g.cur, [StoreTo(o, s)], globals);
  }

  lemma HousedVariable(g: Gen, o: Operand, s: Slot, sym: Symbol, globals: set<Slot>)
    requires g.Valid() && Housed(g, globals)
    ensures Housed(g.EntryAlloca(s).Append([StoreTo(o, s)]).Declare(s, sym), globals)
  {
    HousedAlloca(g, s, globals);
    HousedStore(g.EntryAlloca(s), o, s, globals);
    HousedDeclare(g.EntryAlloca(s).Append([StoreTo(o, s)]), s, sym, globals);
  }

  lemma HousedDef(def: VariableDef, g: Gen, funcs: Functions, globals: set<Slot>)
    requires g.Valid() && Housed(g, globals) && LowerDef(def, g, funcs).Some?
    ensures Housed(LowerDef(def, g, funcs).value, globals)
  {
    match def.init {
      case None =>
        var t := def.declared.value;
        AppendNothing(g);
        HousedVariable(g, Constant(ZeroOf(t)), def.slot, Symbol(t, def.isMutable), globals);
      case Some(e) =>
        var em := LowerExpr(e, g.scopes, funcs, g.next).value;
        HousedEmit(g, e, funcs, globals);
        HousedVariable(g.Emit(em), em.tv.value, def.slot, Symbol(def.declared.GetOr(em.tv.ty), def.isMutable), globals);
    }
  }

  lemma HousedInit(init: Option<VariableDef>, g: Gen, funcs: Functions, globals: set<Slot>)
    requires g.Valid() && Housed(g, globals) && LowerInit(init, g, funcs).Some?
    ensures Housed(LowerInit(init, g, funcs).value, globals)
  {
    if init.Some? { HousedDef(init.value, g, funcs, globals); }
  }

  lemma HousedStep(step: Option<Expr>, g: Gen, funcs: Functions, globals: set<Slot>)
    requires g.Valid() && Housed(g, globals) && LowerStep(step, g, funcs).Some?
    ensures Housed(LowerStep(step, g, funcs).value, globals)
  {
    if step.Some? { HousedEmit(g, step.value, funcs, globals); }
  }

  lemma HousedReturn(r: Option<Expr>, g: Gen, funcs: Functions, returnType: Ty, globals: set<Slot>)
    requires g.Valid() && Housed(g, globals) && LowerReturn(r, g, funcs, returnType).Some?
    ensures Housed(LowerReturn(r, g, funcs, returnType).value, globals)
  {
    match r {
      case None => HousedBranch(g, g.cur, RetVoid, globals);
      case Some(e) =>
        var em := LowerExpr(e, g.scopes, funcs, g.next).value;
        HousedEmit(g, e, funcs, globals);
        HousedBranch(g.Emit(em), g.cur, Ret(em.tv.value), globals);
    }
  }

  lemma HousedBranchToNew(g: Gen, globals: set<Slot>)
    requires g.Valid() && Housed(g, globals)
    ensures Housed(BranchToNew(g), globals)
  {
    HousedCreate(g, globals);
    HousedBranch(g.CreateInserted(), g.cur, Br(|g.blocks|), globals);
  }

  lemma HousedGoToNew(g: Gen, globals: set<Slot>)
    requires g.Valid() && Housed(g, globals)
    ensures Housed(GoToNew(g), globals)
  {
    HousedCreate(g, globals);
  }

  lemma {:induction false} HousedStmt(s: Stmt, g: Gen, funcs: Functions, returnType: Ty, globals: set<Slot>)
    requires g.Valid() && LowerStmt(s, g, funcs, returnType).Some? && Housed(g, globals)
    ensures Housed(LowerStmt(s, g, funcs, returnType).value, globals)
    decreases s, 1
  {
    hide Housed;
    match s {
      case EmptyStmt =>
      case ExprStmt(e) => HousedStep(Some(e), g, funcs, globals);
      case DefStmt(def) => HousedDef(def, g, funcs, globals);
      case BlockStmt(nodes) =>
        HousedAddScope(g, globals);
        HousedAll(nodes, g.AddScope(), funcs, returnType, globals);
        HousedRemoveScope(LowerAll(nodes, g.AddScope(), funcs, returnType).value, globals);
      case IfStmt(_, _, _) => HousedIf(s, g, funcs, returnType, globals);
      case WhileStmt(_, _) => HousedWhile(s, g, funcs, returnType, globals);
      case ForStmt(_, _, _, _) => HousedFor(s, g, funcs, returnType, globals);
      case ReturnStmt(r) => HousedReturn(r, g, funcs, returnType, globals);
    }
  }

  lemma {:induction false} HousedAll(ss: seq<Stmt>, g: Gen, funcs: Functions, returnType: Ty, globals: set<Slot>)
    requires g.Valid() && LowerAll(ss, g, funcs, returnType).Some? && Housed(g, globals)
    ensures Housed(LowerAll(ss, g, funcs, returnType).value, globals)
    decreases ss
  {
    hide Housed;
    if ss != [] {
      HousedStmt(ss[0], g, funcs, returnType, globals);
      HousedAll(ss[1..], LowerStmt(ss[0], g, funcs, returnType).value, funcs, returnType, globals);
    }
  }

  lemma HousedBeginIf(g: Gen, cond: Operand, elseExists: bool, globals: set<Slot>)
    requires g.Valid() && Housed(g, globals)
    ensures Housed(BeginIf(g, cond, elseExists), globals)
  {
    HousedCreate(g, globals);
    HousedCreate(g.CreateInserted(), globals);
    HousedCreate(g.CreateInserted().Create(), globals);
    HousedBranch(g.CreateInserted().Create().Create(), g.cur,
                 CondBr(cond, |g.blocks|, if elseExists then |g.blocks| + 1 else |g.blocks| + 2), globals);
  }

  lemma {:induction false} HousedIf(s: Stmt, g: Gen, funcs: Functions, returnType: Ty, globals: set<Slot>)
    requires g.Valid() && s.IfStmt? && LowerIf(s, g, funcs, returnType).Some? && Housed(g, globals)
    ensures Housed(LowerIf(s, g, funcs, returnType).value, globals)
    decreases s, 0
  {
    hide Housed, LowerIf, LowerStmt;
    var cond, g0, g1, g2, g3 := IfParts(s, g, funcs, returnType);
    HousedAddScope(g, globals);
    HousedEmit(g.AddScope(), s.condition, funcs, globals);
    HousedBeginIf(g.AddScope().Emit(cond), cond.tv.value, s.elseBlock != EmptyStmt, globals);
    HousedStmt(s.ifBlock, g0, funcs, returnType, globals);
    if s.elseBlock != EmptyStmt {
      HousedElse(g1, |g.blocks| + 2, g2, globals);
      HousedStmt(s.elseBlock, g2, funcs, returnType, globals);
    }
    HousedEndIf(g3, |g.blocks| + 2, globals);
  }

  lemma HousedElse(g: Gen, mergeBB: nat, g2: Gen, globals: set<Slot>)
    requires g.Valid() && Housed(g, globals) && mergeBB > 0
    requires g2 == BranchTo(g, mergeBB).Insert(mergeBB - 1).SetInsertPoint(mergeBB - 1)
    ensures Housed(g2, globals)
  {
    HousedBranch(g, g.cur, Br(mergeBB), globals);
  }

  lemma HousedEndIf(g: Gen, mergeBB: nat, globals: set<Slot>)
    requires g.Valid() && Housed(g, globals) && mergeBB < |g.blocks| && |g.scopes| > 1
    ensures Housed(EndIf(BranchTo(g, mergeBB), mergeBB), globals)
  {
    HousedBranch(g, g.cur, Br(mergeBB), globals);
    HousedRemoveScope(BranchTo(g, mergeBB).Insert(mergeBB).SetInsertPoint(mergeBB), globals);
  }

  lemma {:induction false} HousedWhile(s: Stmt, g: Gen, funcs: Functions, returnType: Ty, globals: set<Slot>)
    requires g.Valid() && s.WhileStmt? && LowerWhile(s, g, funcs, returnType).Some? && Housed(g, globals)
    ensures Housed(LowerWhile(s, g, funcs, returnType).value, globals)
    decreases s, 0
  {
    hide Housed, LowerWhile, LowerStmt;
    var gc, cond, g0, g1 := WhileParts(s, g, funcs, returnType);
    HousedAddScope(g, globals);
    HousedBranchToNew(g.AddScope(), globals);
    HousedEmit(gc, s.condition, funcs, globals);
    HousedGoToNew(gc.Emit(cond), globals);
    HousedStmt(s.block, g0, funcs, returnType, globals);
    HousedEndWhile(g1, cond.tv.value, |g.blocks|, |g.blocks| + 1, globals);
  }

  lemma HousedEndWhile(g: Gen, cond: Operand, condBB: nat, bodyBB: nat, globals: set<Slot>)
    requires g.Valid() && condBB < |g.blocks| && |g.scopes| > 1 && Housed(g, globals)
    ensures Housed(EndWhile(g, cond, condBB, bodyBB), globals)
  {
    var g1 := g.CreateInserted();
    HousedCreate(g, globals);
    HousedBranch(g1, condBB, CondBr(cond, bodyBB, |g.blocks|), globals);
    var g2 := g1.AppendTo(condBB, [CondBr(cond, bodyBB, |g.blocks|)]);
    HousedBranch(g2, g.cur, Br(condBB), globals);
    HousedRemoveScope(g2.AppendTo(g.cur, [Br(condBB)]).SetInsertPoint(|g.blocks|), globals);
  }

  lemma {:induction false} HousedFor(s: Stmt, g: Gen, funcs: Functions, returnType: Ty, globals: set<Slot>)
    requires g.Valid() && s.ForStmt? && LowerFor(s, g, funcs, returnType).Some? && Housed(g, globals)
    ensures Housed(LowerFor(s, g, funcs, returnType).value, globals)
    decreases s, 0
  {
    hide Housed, LowerFor, LowerStmt;
    var gi, gj, gc, cond, g0, g1, gs, gt := ForParts(s, g, funcs, returnType);
    HousedAddScope(g, globals);
    HousedBranchToNew(g.AddScope(), globals);
    HousedInit(s.init, gi, funcs, globals);
    HousedGoToNew(gj, globals);
    HousedEmit(gc, s.end, funcs, globals);
    HousedGoToNew(gc.Emit(cond), globals);
    HousedStmt(s.block, g0, funcs, returnType, globals);
    HousedGoToNew(g1, globals);
    HousedStep(s.step, gs, funcs, globals);
    InitGrows(s.init, gi, funcs);
    GrowsStmt(s.block, g0, funcs, returnType);
    HousedEndFor(gt, cond.tv.value, |g.blocks|, g1.cur, |g1.blocks|, globals);
  }

  lemma HousedEndFor(g: Gen, cond: Operand, initBB: nat, bodyEnd: nat, stepBB: nat, globals: set<Slot>)
    requires g.Valid() && initBB + 1 < |g.blocks| && bodyEnd < |g.blocks| && stepBB < |g.blocks| && |g.scopes| > 1
    requires Housed(g, globals)
    ensures Housed(EndFor(g, cond, initBB, bodyEnd, stepBB), globals)
  {
    var g1 := g.CreateInserted();
    HousedCreate(g, globals);
    HousedBranch(g1, initBB, Br(initBB + 1), globals);
    var g2 := g1.AppendTo(initBB, [Br(initBB + 1)]);
    HousedBranch(g2, initBB + 1, CondBr(cond, initBB + 2, |g.blocks|), globals);
    var g3 := g2.AppendTo(initBB + 1, [CondBr(cond, initBB + 2, |g.blocks|)]);
    HousedBranch(g3, bodyEnd, Br(stepBB), globals);
    var g4 := g3.AppendTo(bodyEnd, [Br(stepBB)]);
    HousedBranch(g4, stepBB, Br(initBB + 1), globals);
    HousedRemoveScope(g4.AppendTo(stepBB, [Br(initBB + 1)]).SetInsertPoint(|g.blocks|), globals);
  }

  /** Each parameter gets its own alloca too. */
  lemma {:induction false} HousedParams(params: seq<Param>, i: nat, g: Gen, globals: set<Slot>)
    requires g.Valid() && LowerParams(params, i, g).Some? && Housed(g, globals)
    ensures var g' := LowerParams(params, i, g).value;
      Housed(g', globals) && (forall s :: s in g.allocas ==> s in g'.allocas)
      && forall j :: 0 <= j < |params| ==> params[j].slot in g'.allocas
    decreases params
  {
    if params != [] {
      var s := params[0].slot;
      var sym := Symbol(params[0].ty, false);
      HousedAlloca(g, s, globals);
      HousedDeclare(g.EntryAlloca(s), s, sym, globals);
      HousedStore(g.EntryAlloca(s).Declare(s, sym), Temp(i), s, globals);
      var g1 := g.EntryAlloca(s).Declare(s, sym).Append([StoreTo(Temp(i), s)]);
      assert g1.allocas == [s] + g.allocas;
      HousedParams(params[1..], i + 1, g1, globals);
      assert g1.allocas[0] == s;
      forall j | 0 <= j < |params| ensures params[j].slot in LowerParams(params, i, g).value.allocas {
        if j > 0 { assert params[j] == params[1..][j - 1]; }
      }
    }
  }

  function Slots(params: seq<Param>): set<Slot> {
    set j | 0 <= j < |params| :: params[j].slot
  }

  /** A parameter that hides a global has memory of its own. */
  lemma HousedFunction(f: FunctionDef, globals: Scope, funcs: Functions)
    requires LowerFunction(f, globals, funcs).Some?
    ensures Housed(LowerFunction(f, globals, funcs).value, globals.Keys - Slots(f.params))
  {
    var g0 := Start(globals, |f.params|);
    HousedParams(f.params, 0, g0, globals.Keys);
    var g1 := LowerParams(f.params, 0, g0).value;
    var outside := globals.Keys - Slots(f.params);
    assert Known(g1, outside) == Known(g1, globals.Keys);
    HousedStmt(BlockStmt(f.body), g1, funcs, f.returnType, outside);
    var g2 := LowerStmt(BlockStmt(f.body), g1, funcs, f.returnType).value;
    HousedBranch(g2, g2.cur, RetVoid, outside);
  }

  // The finished function.

  predicate Accesses(i: Instr, s: Slot) {
    match i
    case Load(_, t) => t == s
    case StoreTo(_, t) => t == s
    case _ => false
  }

  /** In the finished function block 0 begins with the allocas; behind them, and in all other
      blocks, variables are used that have one, or globals. */
  lemma FinishedBlocks(f: FunctionDef, globals: Scope, funcs: Functions, b: nat) returns (g: Gen)
    requires Compile(f, globals, funcs).Some?
    requires var c := Compile(f, globals, funcs).value; b in c.layout && b < |c.blocks|
    ensures var code := Compile(f, globals, funcs).value.blocks[b];
      forall i :: 0 <= i < |code| ==>
        (b == 0 && i < |g.allocas|) || Backed(code[i], Known(g, globals.Keys - Slots(f.params)))
    ensures var c := Compile(f, globals, funcs).value;
      c.blocks != [] && |g.allocas| <= |c.blocks[0]|
      && forall k :: 0 <= k < |g.allocas| ==> c.blocks[0][k] == Alloca(g.allocas[k])
  {
    g := LowerFunction(f, globals, funcs).value;
    BranchesStayInside(f, globals, funcs);
    HousedFunction(f, globals, funcs);
    CutAllocas(g.allocas, g.blocks[0]);
    StrippedBlocks(g, Compile(f, globals, funcs).value.blocks);
    CutBacked(g.blocks[b], Known(g, globals.Keys - Slots(f.params)));
  }

  lemma {:induction false} CutBacked(code: Code, known: set<Slot>)
    requires CodeBacked(code, known)
    ensures CodeBacked(Cut(code), known)
    decreases code
  {
    if code != [] && !code[0].IsTerminator() {
      forall i | 0 <= i < |code[1..]| ensures Backed(code[1..][i], known) {
        assert code[1..][i] == code[i + 1];
      }
      CutBacked(code[1..], known);
    }
  }

  /** Every variable that is loaded or stored anywhere in a compiled function, and is no global,
      has an alloca in the entry block, before every other instruction there. */
  lemma EveryVariableHasMemory(f: FunctionDef, globals: Scope, funcs: Functions, b: nat, i: nat, s: Slot)
    requires Compile(f, globals, funcs).Some?
    requires var c := Compile(f, globals, funcs).value;
      b in c.layout && b < |c.blocks| && i < |c.blocks[b]| && Accesses(c.blocks[b][i], s)
    requires s !in globals || exists j :: 0 <= j < |f.params| && f.params[j].slot == s
    ensures var entry := Compile(f, globals, funcs).value.blocks[0];
      exists k :: 0 <= k < |entry| && entry[k] == Alloca(s) && forall j :: 0 <= j <= k ==> entry[j].Alloca?
  {
    var g := FinishedBlocks(f, globals, funcs, b);
    var k :| 0 <= k < |g.allocas| && g.allocas[k] == s;
    assert Compile(f, globals, funcs).value.blocks[0][k] == Alloca(s);
  }

  /** And no alloca stands anywhere else, so that no loop reserves memory again and again. */
  lemma AllocasOnlyInFront(f: FunctionDef, globals: Scope, funcs: Functions, b: nat, i: nat)
    requires Compile(f, globals, funcs).Some?
    requires var c := Compile(f, globals, funcs).value;
      b in c.layout && b < |c.blocks| && i < |c.blocks[b]| && c.blocks[b][i].Alloca?
    ensures b == 0
    ensures forall j :: 0 <= j <= i ==> Compile(f, globals, funcs).value.blocks[0][j].Alloca?
  {
    var g := FinishedBlocks(f, globals, funcs, b);
  }
}
