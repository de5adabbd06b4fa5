/** How code generation grows a function: it only ever appends, and a statement leaves the
    blocks that were there before alone, but for the one it starts in. */
module BlockGrowth {
  import opened Options
  import opened ProgramSyntax
  import opened Ir
  import opened Lowering

  /** g' has all the code of g, and new code only in the insert block of g or new blocks. */
  ghost predicate Grows(g: Gen, g': Gen) {
    && g.cur < |g.blocks| <= |g'.blocks|
    && g'.cur < |g'.blocks|
    && (g'.cur == g.cur || g'.cur >= |g.blocks|)
    && g.blocks[g.cur] <= g'.blocks[g.cur]
    && forall b :: 0 <= b < |g.blocks| && b != g.cur ==> g'.blocks[b] == g.blocks[b]
  }

  lemma GrowsTrans(g: Gen, g1: Gen, g2: Gen)
    requires Grows(g, g1) && Grows(g1, g2)
    ensures Grows(g, g2)
  {
  }

  lemma GrowsDef(def: VariableDef, g: Gen, funcs: Functions)
    requires g.Valid() && LowerDef(def, g, funcs).Some?
    ensures var g' := LowerDef(def, g, funcs).value;
            Grows(g, g') && g'.cur == g.cur && |g'.blocks| == |g.blocks| && g'.layout == g.layout
  {
  }

  lemma StepGrows(step: Option<Expr>, g: Gen, funcs: Functions)
    requires g.Valid() && LowerStep(step, g, funcs).Some?
    ensures var g' := LowerStep(step, g, funcs).value;
            Grows(g, g') && g'.cur == g.cur && |g'.blocks| == |g.blocks| && g'.layout == g.layout
  {
  }

  lemma InitGrows(init: Option<VariableDef>, g: Gen, funcs: Functions)
    requires g.Valid() && LowerInit(init, g, funcs).Some?
    ensures var g' := LowerInit(init, g, funcs).value;
            Grows(g, g') && g'.cur == g.cur && |g'.blocks| == |g.blocks| && g'.layout == g.layout
  {
    if init.Some? {
      GrowsDef(init.value, g, funcs);
    }
  }

  /** The parts of an if; without an else, g2 and g3 stay at g1. */
  lemma IfParts(s: Stmt, g: Gen, funcs: Functions, returnType: Ty)
    returns (cond: Emitted, g0: Gen, g1: Gen, g2: Gen, g3: Gen)
    requires g.Valid() && s.IfStmt? && LowerIf(s, g, funcs, returnType).Some?
    ensures LowerExpr(s.condition, g.AddScope().scopes, funcs, g.next) == Some(cond)
    ensures g0 == BeginIf(g.AddScope().Emit(cond), cond.tv.value, s.elseBlock != EmptyStmt)
    ensures LowerStmt(s.ifBlock, g0, funcs, returnType) == Some(g1) && g1.Valid()
    ensures |g1.blocks| > |g.blocks| + 2
    ensures if s.elseBlock != EmptyStmt then
              && g2 == BranchTo(g1, |g.blocks| + 2).Insert(|g.blocks| + 1).SetInsertPoint(|g.blocks| + 1)
              && LowerStmt(s.elseBlock, g2, funcs, returnType) == Some(g3)
            else
              g2 == g1 && g3 == g1
    ensures g3.Valid() && |g3.blocks| > |g.blocks| + 2 && |g3.scopes| > 1
    ensures LowerIf(s, g, funcs, returnType).value == EndIf(BranchTo(g3, |g.blocks| + 2), |g.blocks| + 2)
  {
    cond := LowerCondition(s.condition, g.AddScope(), funcs).value;
    g0 := BeginIf(g.AddScope().Emit(cond), cond.tv.value, s.elseBlock != EmptyStmt);
    g1 := LowerStmt(s.ifBlock, g0, funcs, returnType).value;
    g2, g3 := ElseParts(s.elseBlock, g1, |g.blocks| + 1, funcs, returnType);
  }

  lemma ElseParts(elseBlock: Stmt, g: Gen, elseBB: nat, funcs: Functions, returnType: Ty) returns (g2: Gen, g3: Gen)
    requires g.Valid() && elseBB < |g.blocks|
    requires LowerElse(elseBlock, BranchTo(g, elseBB + 1), elseBB, funcs, returnType).Some?
    ensures if elseBlock != EmptyStmt then
              && g2 == BranchTo(g, elseBB + 1).Insert(elseBB).SetInsertPoint(elseBB)
              && LowerStmt(elseBlock, g2, funcs, returnType) == Some(g3)
            else
              g2 == g && g3 == g
    ensures g3.Valid() && |g3.blocks| >= |g.blocks| && |g3.scopes| == |g.scopes|
    ensures LowerElse(elseBlock, BranchTo(g, elseBB + 1), elseBB, funcs, returnType).value == BranchTo(g3, elseBB + 1)
  {
    g2, g3 := g, g;
    if elseBlock != EmptyStmt {
      g2 := BranchTo(g, elseBB + 1).Insert(elseBB).SetInsertPoint(elseBB);
      g3 := LowerStmt(elseBlock, g2, funcs, returnType).value;
    }
  }

  /** The parts of a while loop. */
  lemma WhileParts(s: Stmt, g: Gen, funcs: Functions, returnType: Ty)
    returns (gc: Gen, cond: Emitted, g0: Gen, g1: Gen)
    requires g.Valid() && s.WhileStmt? && LowerWhile(s, g, funcs, returnType).Some?
    ensures gc == BranchToNew(g.AddScope()) && g0 == GoToNew(gc.Emit(cond))
    ensures LowerExpr(s.condition, gc.scopes, funcs, gc.next) == Some(cond)
    ensures LowerStmt(s.block, g0, funcs, returnType) == Some(g1)
    ensures g1.Valid() && |g1.scopes| > 1 && |g1.blocks| > |g.blocks| + 1
    ensures LowerWhile(s, g, funcs, returnType).value == EndWhile(g1, cond.tv.value, |g.blocks|, |g.blocks| + 1)
  {
    gc := BranchToNew(g.AddScope());
    cond := LowerCondition(s.condition, gc, funcs).value;
    g0 := GoToNew(gc.Emit(cond));
    g1 := LowerStmt(s.block, g0, funcs, returnType).value;
  }

  /** The parts of a for loop. */
  lemma ForParts(s: Stmt, g: Gen, funcs: Functions, returnType: Ty)
    returns (gi: Gen, gj: Gen, gc: Gen, cond: Emitted, g0: Gen, g1: Gen, gs: Gen, gt: Gen)
    requires g.Valid() && s.ForStmt? && LowerFor(s, g, funcs, returnType).Some?
    ensures gj.Valid() && g1.Valid() && gt.Valid() && |gt.scopes| > 1 && |gt.blocks| == |g1.blocks| + 1
    ensures gi == BranchToNew(g.AddScope()) && gc == GoToNew(gj) && g0 == GoToNew(gc.Emit(cond)) && gs == GoToNew(g1)
    ensures LowerInit(s.init, gi, funcs) == Some(gj)
    ensures LowerExpr(s.end, gc.scopes, funcs, gc.next) == Some(cond)
    ensures LowerStmt(s.block, g0, funcs, returnType) == Some(g1)
    ensures LowerStep(s.step, gs, funcs) == Some(gt)
    ensures LowerFor(s, g, funcs, returnType).value == EndFor(gt, cond.tv.value, |g.blocks|, g1.cur, |g1.blocks|)
  {
    gi := BranchToNew(g.AddScope());
    gj := LowerInit(s.init, gi, funcs).value;
    gc := GoToNew(gj);
    cond := LowerCondition(s.end, gc, funcs).value;
    g0 := GoToNew(gc.Emit(cond));
    g1 := LowerStmt(s.block, g0, funcs, returnType).value;
    gs := GoToNew(g1);
    gt := LowerStep(s.step, gs, funcs).value;
  }

  lemma GrowsIf(g: Gen, cond: Emitted, elseExists: bool)
    requires g.Valid()
    ensures var g1 := BeginIf(g.AddScope().Emit(cond), cond.tv.value, elseExists);
            Grows(g, g1) && g1.cur == |g.blocks|
  {
  }

  lemma GrowsGoToNew(g: Gen, em: Emitted)
    requires g.Valid()
    ensures var g1 := GoToNew(g.Emit(em)); Grows(g, g1) && g1.cur == |g.blocks|
  {
  }

  /** Ending a loop touches no block older than the loop. */
  lemma GrowsEndWhile(g: Gen, g1: Gen, cond: Operand, condBB: nat, bodyBB: nat)
    requires Grows(g, g1) && g1.Valid() && |g1.scopes| > 1
    requires |g.blocks| <= condBB < |g1.blocks| && |g.blocks| <= g1.cur
    ensures Grows(g, EndWhile(g1, cond, condBB, bodyBB))
  {
  }

  lemma GrowsEndFor(g: Gen, g1: Gen, cond: Operand, initBB: nat, bodyEnd: nat, stepBB: nat)
    requires Grows(g, g1) && g1.Valid() && |g1.scopes| > 1
    requires |g.blocks| <= initBB && initBB + 1 < |g1.blocks| && |g.blocks| <= bodyEnd < |g1.blocks| && |g.blocks| <= stepBB < |g1.blocks|
    ensures Grows(g, EndFor(g1, cond, initBB, bodyEnd, stepBB))
  {
  }

  lemma {:induction false} GrowsStmt(s: Stmt, g: Gen, funcs: Functions, returnType: Ty)
    requires g.Valid() && LowerStmt(s, g, funcs, returnType).Some?
    ensures Grows(g, LowerStmt(s, g, funcs, returnType).value)
    decreases s, 1
  {
    match s {
      case EmptyStmt =>
      case ExprStmt(_) =>
      case DefStmt(def) => GrowsDef(def, g, funcs);
      case BlockStmt(nodes) => GrowsAll(nodes, g.AddScope(), funcs, returnType);
      case IfStmt(_, _, _) => GrowsIfStmt(s, g, funcs, returnType);
      case WhileStmt(_, _) => GrowsWhileStmt(s, g, funcs, returnType);
      case ForStmt(_, _, _, _) => GrowsForStmt(s, g, funcs, returnType);
      case ReturnStmt(_) =>
    }
  }

  lemma IfGrowth(g: Gen, cond: Emitted, elseExists: bool, g0: Gen, g1: Gen, g2: Gen, g3: Gen, g': Gen)
    requires g.Valid() && g1.Valid() && g3.Valid() && |g1.blocks| > |g.blocks| + 2
    requires g0 == BeginIf(g.AddScope().Emit(cond), cond.tv.value, elseExists) && Grows(g0, g1)
    requires if elseExists then
               && g2 == BranchTo(g1, |g.blocks| + 2).Insert(|g.blocks| + 1).SetInsertPoint(|g.blocks| + 1)
               && Grows(g2, g3)
             else
               g2 == g1 && g3 == g1
    requires g'.blocks == BranchTo(g3, |g.blocks| + 2).blocks && g'.cur == |g.blocks| + 2
    ensures Grows(g, g')
  {
    GrowsIf(g, cond, elseExists);
    GrowsTrans(g, g0, g1);
    if elseExists {
      assert Grows(g, g2);
      GrowsTrans(g, g2, g3);
    }
  }

  lemma {:induction false} GrowsIfStmt(s: Stmt, g: Gen, funcs: Functions, returnType: Ty)
    requires g.Valid() && s.IfStmt? && LowerIf(s, g, funcs, returnType).Some?
    ensures Grows(g, LowerIf(s, g, funcs, returnType).value)
    decreases s, 0
  {
    var cond, g0, g1, g2, g3 := IfParts(s, g, funcs, returnType);
    GrowsStmt(s.ifBlock, g0, funcs, returnType);
    if s.elseBlock != EmptyStmt {
      GrowsStmt(s.elseBlock, g2, funcs, returnType);
    }
    IfGrowth(g, cond, s.elseBlock != EmptyStmt, g0, g1, g2, g3, LowerIf(s, g, funcs, returnType).value);
  }

  lemma WhileGrowth(g: Gen, gc: Gen, cond: Emitted, g0: Gen, g1: Gen)
    requires g.Valid() && g1.Valid() && |g1.scopes| > 1 && |g1.blocks| > |g.blocks| + 1
    requires gc == BranchToNew(g.AddScope()) && g0 == GoToNew(gc.Emit(cond)) && Grows(g0, g1)
    ensures Grows(g, EndWhile(g1, cond.tv.value, |g.blocks|, |g.blocks| + 1))
  {
    GrowsGoToNew(gc, cond);
    assert Grows(g, gc);
    GrowsTrans(g, gc, g0);
    GrowsTrans(g, g0, g1);
    GrowsEndWhile(g, g1, cond.tv.value, |g.blocks|, |g.blocks| + 1);
  }

  lemma {:induction false} GrowsWhileStmt(s: Stmt, g: Gen, funcs: Functions, returnType: Ty)
    requires g.Valid() && s.WhileStmt? && LowerWhile(s, g, funcs, returnType).Some?
    ensures Grows(g, LowerWhile(s, g, funcs, returnType).value)
    decreases s, 0
  {
    var gc, cond, g0, g1 := WhileParts(s, g, funcs, returnType);
    GrowsStmt(s.block, g0, funcs, returnType);
    WhileGrowth(g, gc, cond, g0, g1);
  }

  lemma ForGrowth(g: Gen, gi: Gen, gj: Gen, gc: Gen, cond: Emitted, g0: Gen, g1: Gen, gs: Gen, gt: Gen)
    requires g.Valid() && gj.Valid() && g1.Valid() && gt.Valid() && |gt.scopes| > 1 && |gt.blocks| == |g1.blocks| + 1
    requires gi == BranchToNew(g.AddScope()) && Grows(gi, gj) && gj.cur == gi.cur && |gj.blocks| == |gi.blocks|
    requires gc == GoToNew(gj) && g0 == GoToNew(gc.Emit(cond))
    requires Grows(g0, g1) && gs == GoToNew(g1) && Grows(gs, gt)
    ensures Grows(g, EndFor(gt, cond.tv.value, |g.blocks|, g1.cur, |g1.blocks|))
  {
    assert Grows(g, gi);
    GrowsTrans(g, gi, gj);
    assert Grows(gj, gc);
    GrowsTrans(g, gj, gc);
    GrowsGoToNew(gc, cond);
    GrowsTrans(g, gc, g0);
    GrowsTrans(g, g0, g1);
    assert Grows(g, gs);
    GrowsTrans(g, gs, gt);
    GrowsEndFor(g, gt, cond.tv.value, |g.blocks|, g1.cur, |g1.blocks|);
  }

  lemma {:induction false} GrowsForStmt(s: Stmt, g: Gen, funcs: Functions, returnType: Ty)
    requires g.Valid() && s.ForStmt? && LowerFor(s, g, funcs, returnType).Some?
    ensures Grows(g, LowerFor(s, g, funcs, returnType).value)
    decreases s, 0
  {
    var gi, gj, gc, cond, g0, g1, gs, gt := ForParts(s, g, funcs, returnType);
    InitGrows(s.init, gi, funcs);
    StepGrows(s.step, gs, funcs);
    GrowsStmt(s.block, g0, funcs, returnType);
    ForGrowth(g, gi, gj, gc, cond, g0, g1, gs, gt);
  }

  lemma {:induction false} GrowsAll(ss: seq<Stmt>, g: Gen, funcs: Functions, returnType: Ty)
    requires g.Valid() && LowerAll(ss, g, funcs, returnType).Some?
    ensures Grows(g, LowerAll(ss, g, funcs, returnType).value)
    decreases ss
  {
    if ss != [] {
      GrowsStmt(ss[0], g, funcs, returnType);
      GrowsAll(ss[1..], LowerStmt(ss[0], g, funcs, returnType).value, funcs, returnType);
    }
  }
}
