/** After a statement every block of the function ends in a terminator, but for the one
    code generation stands in; and branches lead to blocks of the function, never to the
    entry block. */
module Terminators {
  import opened Options
  import opened ProgramSyntax
  import opened Ir
  import opened Lowering
  import opened ExprSimulation
  import opened BlockGrowth

  predicate HasTerminator(code: Code) {
    exists i :: 0 <= i < |code| && code[i].IsTerminator()
  }

  /** The blocks inserted between g and g' are new and, but for the insert block and those
      in `open`, have a terminator; so has the insert block of g, if it was left. */
  ghost predicate Sealed(g: Gen, g': Gen, open: set<nat>) {
    && Grows(g, g')
    && g.layout <= g'.layout
    && (forall i :: |g.layout| <= i < |g'.layout| ==> |g.blocks| <= g'.layout[i] < |g'.blocks|)
    && (forall i :: |g.layout| <= i < |g'.layout| && g'.layout[i] != g'.cur && g'.layout[i] !in open ==>
          HasTerminator(g'.blocks[g'.layout[i]]))
    && (g'.cur != g.cur ==> HasTerminator(g'.blocks[g.cur]) && g'.cur in g'.layout[|g.layout|..])
  }

  lemma StillTerminated(a: Code, b: Code)
    requires a <= b && HasTerminator(a)
    ensures HasTerminator(b)
  {
    var i :| 0 <= i < |a| && a[i].IsTerminator();
    assert b[i] == a[i];
  }

  lemma EndsTerminated(a: Code, i: Instr)
    requires i.IsTerminator()
    ensures HasTerminator(a + [i])
  {
    assert (a + [i])[|a|] == i;
  }

  lemma SealedTrans(g: Gen, g1: Gen, g2: Gen, open: set<nat>)
    requires Sealed(g, g1, open) && Sealed(g1, g2, {}) && g1.cur !in open && g.cur !in open
    ensures Sealed(g, g2, open)
  {
    GrowsTrans(g, g1, g2);
    forall i | |g.layout| <= i < |g2.layout| && g2.layout[i] != g2.cur && g2.layout[i] !in open
      ensures HasTerminator(g2.blocks[g2.layout[i]])
    {
      var b := g2.layout[i];
      if i < |g1.layout| {
        assert b == g1.layout[i];
      }
    }
    if g2.cur != g.cur {
      if g2.cur == g1.cur {
        var j :| 0 <= j < |g1.layout[|g.layout|..]| && g1.layout[|g.layout|..][j] == g2.cur;
        assert g2.layout[|g.layout|..][j] == g2.cur;
      } else {
        var j :| 0 <= j < |g2.layout[|g1.layout|..]| && g2.layout[|g1.layout|..][j] == g2.cur;
        assert g2.layout[|g.layout|..][j + |g1.layout| - |g.layout|] == g2.cur;
      }
    }
  }

  /** Leaves the insert block of g1 behind a terminator, and goes on in block b. */
  lemma SealAndGo(g: Gen, g1: Gen, g2: Gen, i: Instr, b: nat, open: set<nat>)
    requires Sealed(g, g1, open) && i.IsTerminator()
    requires g2.blocks == g1.blocks[g1.cur := g1.blocks[g1.cur] + [i]]
    requires g2.layout == g1.layout + [b] && g2.cur == b && |g.blocks| <= b < |g1.blocks|
    ensures Sealed(g, g2, open)
  {
    EndsTerminated(g1.blocks[g1.cur], i);
    forall j | |g.layout| <= j < |g2.layout| && g2.layout[j] != g2.cur && g2.layout[j] !in open
      ensures HasTerminator(g2.blocks[g2.layout[j]])
    {
      assert g2.layout[j] == g1.layout[j];
    }
    assert g2.layout[|g.layout|..][|g1.layout| - |g.layout|] == b;
  }

  lemma SealedBranchToNew(g: Gen)
    requires g.Valid()
    ensures Sealed(g, BranchToNew(g.AddScope()), {})
  {
    EndsTerminated(g.blocks[g.cur], Br(|g.blocks|));
    assert BranchToNew(g.AddScope()).layout[|g.layout|..] == [|g.blocks|];
  }

  /** Goes on in a new block and leaves the current one open. */
  lemma SealedGoToNew(g: Gen, g1: Gen, code: Code, open: set<nat>)
    requires Sealed(g, g1, open) && g1.Valid() && g1.cur != g.cur
    ensures Sealed(g, GoToNew(g1.Append(code)), open + {g1.cur})
  {
    var g2 := GoToNew(g1.Append(code));
    forall j | |g.layout| <= j < |g2.layout| && g2.layout[j] != g2.cur && g2.layout[j] !in open + {g1.cur}
      ensures HasTerminator(g2.blocks[g2.layout[j]])
    {
      assert g2.layout[j] == g1.layout[j];
    }
    assert g2.layout[|g.layout|..][|g1.layout| - |g.layout|] == |g1.blocks|;
  }

  /** Straight-line code opens and closes nothing. */
  lemma SealedStraight(g: Gen, g1: Gen)
    requires Grows(g, g1) && g1.cur == g.cur && g1.layout == g.layout
    ensures Sealed(g, g1, {})
  {
  }

  lemma AppendNothing(g: Gen)
    requires g.Valid()
    ensures g.Append([]) == g
  {
    assert g.blocks[g.cur] + [] == g.blocks[g.cur];
  }

  lemma SealedDef(def: VariableDef, g: Gen, funcs: Functions)
    requires g.Valid() && LowerDef(def, g, funcs).Some?
    ensures Sealed(g, LowerDef(def, g, funcs).value, {})
  {
    GrowsDef(def, g, funcs);
    SealedStraight(g, LowerDef(def, g, funcs).value);
  }

  lemma SealedIf(g: Gen, cond: Emitted, elseExists: bool)
    requires g.Valid()
    ensures Sealed(g, BeginIf(g.AddScope().Emit(cond), cond.tv.value, elseExists), {})
  {
    GrowsIf(g, cond, elseExists);
    var (thenBB, elseBB, mergeBB) := (|g.blocks|, |g.blocks| + 1, |g.blocks| + 2);
    EndsTerminated(g.blocks[g.cur] + cond.code, CondBr(cond.tv.value, thenBB, if elseExists then elseBB else mergeBB));
    assert BeginIf(g.AddScope().Emit(cond), cond.tv.value, elseExists).layout[|g.layout|..] == [thenBB];
  }

  /** Closing branches: every block of `open` and the insert block get a terminator. */
  lemma SealedEnd(g: Gen, g1: Gen, g2: Gen, open: set<nat>)
    requires Sealed(g, g1, open) && Grows(g, g2)
    requires g2.layout == g1.layout + [|g1.blocks|] && g2.cur == |g1.blocks| && |g2.blocks| == |g1.blocks| + 1
    requires g.cur != g1.cur && g.cur !in open
    requires forall b :: 0 <= b < |g1.blocks| ==> g1.blocks[b] <= g2.blocks[b]
    requires forall b :: b in open || b == g1.cur ==> 0 <= b < |g1.blocks| && HasTerminator(g2.blocks[b])
    ensures Sealed(g, g2, {})
  {
    forall j | |g.layout| <= j < |g2.layout| && g2.layout[j] != g2.cur
      ensures HasTerminator(g2.blocks[g2.layout[j]])
    {
      var b := g2.layout[j];
      assert b == g1.layout[j];
      if b !in open && b != g1.cur {
        StillTerminated(g1.blocks[b], g2.blocks[b]);
      }
    }
    StillTerminated(g1.blocks[g.cur], g2.blocks[g.cur]);
    assert g2.layout[|g.layout|..][|g1.layout| - |g.layout|] == |g1.blocks|;
  }

  lemma {:induction false} SealedStmt(s: Stmt, g: Gen, funcs: Functions, returnType: Ty)
    requires g.Valid() && LowerStmt(s, g, funcs, returnType).Some?
    ensures Sealed(g, LowerStmt(s, g, funcs, returnType).value, {})
    decreases s, 1
  {
    match s {
      case EmptyStmt =>
      case ExprStmt(e) => SealedStraight(g, LowerStep(Some(e), g, funcs).value);
      case DefStmt(def) => SealedDef(def, g, funcs);
      case BlockStmt(nodes) => SealedAll(nodes, g.AddScope(), funcs, returnType);
      case IfStmt(_, _, _) => SealedIfStmt(s, g, funcs, returnType);
      case WhileStmt(_, _) => SealedWhileStmt(s, g, funcs, returnType);
      case ForStmt(_, _, _, _) => SealedForStmt(s, g, funcs, returnType);
      case ReturnStmt(r) => SealedStraight(g, LowerReturn(r, g, funcs, returnType).value);
    }
  }

  lemma {:induction false} SealedAll(ss: seq<Stmt>, g: Gen, funcs: Functions, returnType: Ty)
    requires g.Valid() && LowerAll(ss, g, funcs, returnType).Some?
    ensures Sealed(g, LowerAll(ss, g, funcs, returnType).value, {})
    decreases ss
  {
    if ss != [] {
      var g1 := LowerStmt(ss[0], g, funcs, returnType).value;
      SealedStmt(ss[0], g, funcs, returnType);
      SealedAll(ss[1..], g1, funcs, returnType);
      SealedTrans(g, g1, LowerAll(ss[1..], g1, funcs, returnType).value, {});
    }
  }

  lemma SealedIfParts(g: Gen, cond: Emitted, elseExists: bool, g0: Gen, g1: Gen, g2: Gen, g3: Gen)
    requires g.Valid() && g1.Valid() && g3.Valid() && |g1.blocks| > |g.blocks| + 2 && |g3.scopes| > 1
    requires g0 == BeginIf(g.AddScope().Emit(cond), cond.tv.value, elseExists) && Sealed(g0, g1, {})
    requires if elseExists then
               && g2 == BranchTo(g1, |g.blocks| + 2).Insert(|g.blocks| + 1).SetInsertPoint(|g.blocks| + 1)
               && Sealed(g2, g3, {})
             else
               g2 == g1 && g3 == g1
    ensures |g3.blocks| > |g.blocks| + 2
    ensures Sealed(g, EndIf(BranchTo(g3, |g.blocks| + 2), |g.blocks| + 2), {})
  {
    var mergeBB := |g.blocks| + 2;
    SealedIf(g, cond, elseExists);
    SealedTrans(g, g0, g1, {});
    if elseExists {
      SealAndGo(g, g1, g2, Br(mergeBB), mergeBB - 1, {});
      SealedTrans(g, g2, g3, {});
    }
    SealAndGo(g, g3, EndIf(BranchTo(g3, mergeBB), mergeBB), Br(mergeBB), mergeBB, {});
  }

  lemma {:induction false} SealedIfStmt(s: Stmt, g: Gen, funcs: Functions, returnType: Ty)
    requires g.Valid() && s.IfStmt? && LowerIf(s, g, funcs, returnType).Some?
    ensures Sealed(g, LowerIf(s, g, funcs, returnType).value, {})
    decreases s, 0
  {
    var cond, g0, g1, g2, g3 := IfParts(s, g, funcs, returnType);
    SealedStmt(s.ifBlock, g0, funcs, returnType);
    if s.elseBlock != EmptyStmt {
      SealedStmt(s.elseBlock, g2, funcs, returnType);
    }
    SealedIfParts(g, cond, s.elseBlock != EmptyStmt, g0, g1, g2, g3);
  }

  lemma SealedWhileParts(g: Gen, gc: Gen, cond: Emitted, g0: Gen, g1: Gen)
    requires g.Valid() && g1.Valid() && |g1.scopes| > 1 && |g1.blocks| > |g.blocks| + 1
    requires gc == BranchToNew(g.AddScope()) && g0 == GoToNew(gc.Emit(cond)) && Sealed(g0, g1, {})
    ensures Sealed(g, EndWhile(g1, cond.tv.value, |g.blocks|, |g.blocks| + 1), {})
  {
    SealedWhileHead(g, gc, cond, g0);
    SealedTrans(g, g0, g1, {|g.blocks|});
    WhileGrowth(g, gc, cond, g0, g1);
    EndsWhile(g1, cond.tv.value, |g.blocks|, |g.blocks| + 1);
    SealedEnd(g, g1, EndWhile(g1, cond.tv.value, |g.blocks|, |g.blocks| + 1), {|g.blocks|});
  }

  lemma SealedWhileHead(g: Gen, gc: Gen, cond: Emitted, g0: Gen)
    requires g.Valid() && gc == BranchToNew(g.AddScope()) && g0 == GoToNew(gc.Emit(cond))
    ensures Sealed(g, g0, {|g.blocks|}) && g0.cur == |g.blocks| + 1
  {
    SealedBranchToNew(g);
    SealedGoToNew(g, gc, cond.code, {});
    assert {} + {gc.cur} == {|g.blocks|};
  }

  lemma {:induction false} SealedWhileStmt(s: Stmt, g: Gen, funcs: Functions, returnType: Ty)
    requires g.Valid() && s.WhileStmt? && LowerWhile(s, g, funcs, returnType).Some?
    ensures Sealed(g, LowerWhile(s, g, funcs, returnType).value, {})
    decreases s, 0
  {
    var gc, cond, g0, g1 := WhileParts(s, g, funcs, returnType);
    SealedStmt(s.block, g0, funcs, returnType);
    SealedWhileParts(g, gc, cond, g0, g1);
  }

  lemma EndsWhile(g: Gen, cond: Operand, condBB: nat, bodyBB: nat)
    requires g.Valid() && condBB < |g.blocks| && |g.scopes| > 1 && condBB != g.cur
    ensures var g' := EndWhile(g, cond, condBB, bodyBB);
            && HasTerminator(g'.blocks[condBB]) && HasTerminator(g'.blocks[g.cur])
            && forall b :: 0 <= b < |g.blocks| ==> g.blocks[b] <= g'.blocks[b]
  {
    EndsTerminated(g.blocks[condBB], CondBr(cond, bodyBB, |g.blocks|));
    EndsTerminated(g.blocks[g.cur], Br(condBB));
  }

  lemma EndsFor(g: Gen, cond: Operand, initBB: nat, bodyEnd: nat)
    requires g.Valid() && |g.scopes| > 1 && initBB + 1 < bodyEnd < g.cur
    ensures var g' := EndFor(g, cond, initBB, bodyEnd, g.cur);
            && HasTerminator(g'.blocks[initBB]) && HasTerminator(g'.blocks[initBB + 1])
            && HasTerminator(g'.blocks[bodyEnd]) && HasTerminator(g'.blocks[g.cur])
            && forall b :: 0 <= b < |g.blocks| ==> g.blocks[b] <= g'.blocks[b]
  {
    EndsTerminated(g.blocks[initBB], Br(initBB + 1));
    EndsTerminated(g.blocks[initBB + 1], CondBr(cond, initBB + 2, |g.blocks|));
    EndsTerminated(g.blocks[bodyEnd], Br(g.cur));
    EndsTerminated(g.blocks[g.cur], Br(initBB + 1));
  }

  lemma {:induction false} SealedForStmt(s: Stmt, g: Gen, funcs: Functions, returnType: Ty)
    requires g.Valid() && s.ForStmt? && LowerFor(s, g, funcs, returnType).Some?
    ensures Sealed(g, LowerFor(s, g, funcs, returnType).value, {})
    decreases s, 0
  {
    var gi, gj, gc, cond, g0, g1, gs, gt := ForParts(s, g, funcs, returnType);
    InitGrows(s.init, gi, funcs);
    StepGrows(s.step, gs, funcs);
    SealedStmt(s.block, g0, funcs, returnType);
    SealedForParts(g, gi, gj, gc, cond, g0, g1, gs, gt);
    ForGrowth(g, gi, gj, gc, cond, g0, g1, gs, gt);
    SealedForEnd(g, gt, cond.tv.value, g1.cur);
  }

  lemma SealedForEnd(g: Gen, gt: Gen, cond: Operand, bodyEnd: nat)
    requires g.Valid() && gt.Valid() && |gt.scopes| > 1 && |g.blocks| + 1 < bodyEnd < gt.cur
    requires Sealed(g, gt, {|g.blocks|, |g.blocks| + 1, bodyEnd})
    requires Grows(g, EndFor(gt, cond, |g.blocks|, bodyEnd, gt.cur))
    ensures Sealed(g, EndFor(gt, cond, |g.blocks|, bodyEnd, gt.cur), {})
  {
    EndsFor(gt, cond, |g.blocks|, bodyEnd);
    SealedEnd(g, gt, EndFor(gt, cond, |g.blocks|, bodyEnd, gt.cur), {|g.blocks|, |g.blocks| + 1, bodyEnd});
  }

  lemma SealedForHead(g: Gen, gi: Gen, gj: Gen, gc: Gen, cond: Emitted, g0: Gen)
    requires g.Valid() && gj.Valid()
    requires gi == BranchToNew(g.AddScope())
    requires Grows(gi, gj) && gj.cur == gi.cur && |gj.blocks| == |gi.blocks| && gj.layout == gi.layout
    requires gc == GoToNew(gj) && g0 == GoToNew(gc.Emit(cond))
    ensures Sealed(g, g0, {gj.cur, gc.cur})
    ensures gj.cur == |g.blocks| && gc.cur == |g.blocks| + 1 && g0.cur == |g.blocks| + 2
  {
    SealedBranchToNew(g);
    SealedStraight(gi, gj);
    SealedTrans(g, gi, gj, {});
    AppendNothing(gj);
    SealedGoToNew(g, gj, [], {});
    assert {} + {gj.cur} == {gj.cur};
    SealedGoToNew(g, gc, cond.code, {gj.cur});
    assert {gj.cur} + {gc.cur} == {gj.cur, gc.cur};
  }

  lemma SealedForTail(g: Gen, g1: Gen, gs: Gen, gt: Gen, initBB: nat, condBB: nat)
    requires Sealed(g, g1, {initBB, condBB}) && g1.Valid() && gs == GoToNew(g1)
    requires g.cur != initBB && g.cur != condBB && |g.blocks| <= g1.cur
    requires Grows(gs, gt) && gt.cur == gs.cur && |gt.blocks| == |gs.blocks| && gt.layout == gs.layout
    requires initBB < |g1.blocks| && condBB < |g1.blocks|
    ensures Sealed(g, gt, {initBB, condBB, g1.cur})
  {
    AppendNothing(g1);
    SealedGoToNew(g, g1, [], {initBB, condBB});
    assert {initBB, condBB} + {g1.cur} == {initBB, condBB, g1.cur};
    SealedStraight(gs, gt);
    SealedTrans(g, gs, gt, {initBB, condBB, g1.cur});
  }

  lemma SealedForParts(g: Gen, gi: Gen, gj: Gen, gc: Gen, cond: Emitted, g0: Gen, g1: Gen, gs: Gen, gt: Gen)
    requires g.Valid() && gj.Valid() && g1.Valid()
    requires gi == BranchToNew(g.AddScope())
    requires Grows(gi, gj) && gj.cur == gi.cur && |gj.blocks| == |gi.blocks| && gj.layout == gi.layout
    requires gc == GoToNew(gj) && g0 == GoToNew(gc.Emit(cond))
    requires Sealed(g0, g1, {}) && gs == GoToNew(g1)
    requires Grows(gs, gt) && gt.cur == gs.cur && |gt.blocks| == |gs.blocks| && gt.layout == gs.layout
    ensures Sealed(g, gt, {|g.blocks|, |g.blocks| + 1, g1.cur})
    ensures |g.blocks| + 1 < g1.cur < gt.cur < |gt.blocks|
  {
    hide Grows;
    SealedForHead(g, gi, gj, gc, cond, g0);
    SealedTrans(g, g0, g1, {gj.cur, gc.cur});
    SealedForTail(g, g1, gs, gt, gj.cur, gc.cur);
  }

  // ---- branch targets ----

  function TargetsOf(i: Instr): set<nat> {
    match i
    case Br(b) => {b}
    case CondBr(_, t, f) => {t, f}
    case _ => {}
  }

  ghost predicate CodeLeadsTo(code: Code, to: set<nat>) {
    forall i :: 0 <= i < |code| ==> TargetsOf(code[i]) <= to
  }

  /** Every branch in g leads to a block in `to`. */
  ghost predicate LeadsTo(g: Gen, to: set<nat>) {
    forall b :: 0 <= b < |g.blocks| ==> CodeLeadsTo(g.blocks[b], to)
  }

  lemma LeadsToAppended(g: Gen, b: nat, code: Code, to: set<nat>)
    requires LeadsTo(g, to) && b < |g.blocks| && CodeLeadsTo(code, to)
    ensures LeadsTo(g.AppendTo(b, code), to)
  {
    assert CodeLeadsTo(g.blocks[b] + code, to);
  }

  lemma StraightLeadsNowhere(code: Code, to: set<nat>)
    requires Straight(code)
    ensures CodeLeadsTo(code, to)
  {
  }

  /** The blocks inserted since g. */
  ghost predicate NewIn(g: Gen, g': Gen, to: set<nat>) {
    g.layout <= g'.layout && forall i :: |g.layout| <= i < |g'.layout| ==> g'.layout[i] in to
  }

  lemma NewInPart(g: Gen, g0: Gen, g1: Gen, g': Gen, to: set<nat>)
    requires NewIn(g, g', to) && g.layout <= g0.layout <= g1.layout <= g'.layout
    ensures NewIn(g0, g1, to)
  {
  }

  lemma LeadsEmit(g: Gen, e: Expr, funcs: Functions, to: set<nat>)
    requires g.Valid() && LeadsTo(g, to) && LowerExpr(e, g.scopes, funcs, g.next).Some?
    ensures LeadsTo(g.Emit(LowerExpr(e, g.scopes, funcs, g.next).value), to)
  {
    var em := LowerExpr(e, g.scopes, funcs, g.next).value;
    EmittedFacts(e, g.scopes, funcs, g.next);
    StraightLeadsNowhere(em.code, to);
    LeadsToAppended(g, g.cur, em.code, to);
  }

  lemma LeadsDef(def: VariableDef, g: Gen, funcs: Functions, to: set<nat>)
    requires g.Valid() && LeadsTo(g, to) && LowerDef(def, g, funcs).Some?
    ensures LeadsTo(LowerDef(def, g, funcs).value, to)
  {
    var g' := LowerDef(def, g, funcs).value;
    match def.init {
      case None =>
        AppendNothing(g);
        LeadsToAppended(g, g.cur, [StoreTo(Constant(ZeroOf(def.declared.value)), def.slot)], to);
      case Some(e) =>
        var em := LowerExpr(e, g.scopes, funcs, g.next).value;
        LeadsEmit(g, e, funcs, to);
        LeadsToAppended(g.Emit(em), g.cur, [StoreTo(em.tv.value, def.slot)], to);
    }
  }

  lemma LeadsReturn(r: Option<Expr>, g: Gen, funcs: Functions, returnType: Ty, to: set<nat>)
    requires g.Valid() && LeadsTo(g, to) && LowerReturn(r, g, funcs, returnType).Some?
    ensures LeadsTo(LowerReturn(r, g, funcs, returnType).value, to)
  {
    match r {
      case None => LeadsToAppended(g, g.cur, [RetVoid], to);
      case Some(e) =>
        var em := LowerExpr(e, g.scopes, funcs, g.next).value;
        LeadsEmit(g, e, funcs, to);
        LeadsToAppended(g.Emit(em), g.cur, [Ret(em.tv.value)], to);
    }
  }

  lemma LeadsStep(step: Option<Expr>, g: Gen, funcs: Functions, to: set<nat>)
    requires g.Valid() && LeadsTo(g, to) && LowerStep(step, g, funcs).Some?
    ensures LeadsTo(LowerStep(step, g, funcs).value, to)
  {
    if step.Some? {
      LeadsEmit(g, step.value, funcs, to);
    }
  }

  lemma LeadsBranchToNew(g: Gen, to: set<nat>)
    requires g.Valid() && LeadsTo(g, to) && |g.blocks| in to
    ensures LeadsTo(BranchToNew(g), to)
  {
    LeadsToAppended(g.CreateInserted(), g.cur, [Br(|g.blocks|)], to);
  }

  lemma {:induction false} LeadsStmt(s: Stmt, g: Gen, funcs: Functions, returnType: Ty, to: set<nat>)
    requires g.Valid() && LowerStmt(s, g, funcs, returnType).Some?
    requires LeadsTo(g, to) && NewIn(g, LowerStmt(s, g, funcs, returnType).value, to)
    ensures LeadsTo(LowerStmt(s, g, funcs, returnType).value, to)
    decreases s, 1
  {
    match s {
      case EmptyStmt =>
      case ExprStmt(e) => LeadsStep(Some(e), g, funcs, to);
      case DefStmt(def) => LeadsDef(def, g, funcs, to);
      case BlockStmt(nodes) => LeadsAll(nodes, g.AddScope(), funcs, returnType, to);
      case IfStmt(_, _, _) => LeadsIf(s, g, funcs, returnType, to);
      case WhileStmt(_, _) => LeadsWhile(s, g, funcs, returnType, to);
      case ForStmt(_, _, _, _) => LeadsFor(s, g, funcs, returnType, to);
      case ReturnStmt(r) => LeadsReturn(r, g, funcs, returnType, to);
    }
  }

  lemma {:induction false} LeadsAll(ss: seq<Stmt>, g: Gen, funcs: Functions, returnType: Ty, to: set<nat>)
    requires g.Valid() && LowerAll(ss, g, funcs, returnType).Some?
    requires LeadsTo(g, to) && NewIn(g, LowerAll(ss, g, funcs, returnType).value, to)
    ensures LeadsTo(LowerAll(ss, g, funcs, returnType).value, to)
    decreases ss
  {
    if ss != [] {
      var g1 := LowerStmt(ss[0], g, funcs, returnType).value;
      var g2 := LowerAll(ss[1..], g1, funcs, returnType).value;
      SealedStmt(ss[0], g, funcs, returnType);
      SealedAll(ss[1..], g1, funcs, returnType);
      NewInPart(g, g, g1, g2, to);
      NewInPart(g, g1, g2, g2, to);
      LeadsStmt(ss[0], g, funcs, returnType, to);
      LeadsAll(ss[1..], g1, funcs, returnType, to);
    }
  }

  lemma LeadsBeginIf(g: Gen, c: Expr, funcs: Functions, cond: Emitted, elseExists: bool, to: set<nat>)
    requires g.Valid() && LeadsTo(g, to)
    requires LowerExpr(c, g.AddScope().scopes, funcs, g.next) == Some(cond)
    requires |g.blocks| in to && |g.blocks| + 2 in to && (elseExists ==> |g.blocks| + 1 in to)
    ensures LeadsTo(BeginIf(g.AddScope().Emit(cond), cond.tv.value, elseExists), to)
  {
    LeadsEmit(g.AddScope(), c, funcs, to);
    var g1 := g.AddScope().Emit(cond).CreateInserted().Create().Create();
    assert LeadsTo(g1, to);
    LeadsToAppended(g1, g.cur, [CondBr(cond.tv.value, |g.blocks|, if elseExists then |g.blocks| + 1 else |g.blocks| + 2)], to);
  }

  lemma {:induction false} LeadsIf(s: Stmt, g: Gen, funcs: Functions, returnType: Ty, to: set<nat>)
    requires g.Valid() && s.IfStmt? && LowerIf(s, g, funcs, returnType).Some?
    requires LeadsTo(g, to) && NewIn(g, LowerIf(s, g, funcs, returnType).value, to)
    ensures LeadsTo(LowerIf(s, g, funcs, returnType).value, to)
    decreases s, 0
  {
    var elseExists := s.elseBlock != EmptyStmt;
    var cond, g0, g1, g2, g3 := IfParts(s, g, funcs, returnType);
    SealedStmt(s.ifBlock, g0, funcs, returnType);
    if elseExists {
      SealedStmt(s.elseBlock, g2, funcs, returnType);
    }
    var g' := EndIf(BranchTo(g3, |g.blocks| + 2), |g.blocks| + 2);
    IfLayouts(g, cond, elseExists, g0, g1, g2, g3, to);
    LeadsBeginIf(g, s.condition, funcs, cond, elseExists, to);
    LeadsStmt(s.ifBlock, g0, funcs, returnType, to);
    if elseExists {
      LeadsToAppended(g1, g1.cur, [Br(|g.blocks| + 2)], to);
      LeadsStmt(s.elseBlock, g2, funcs, returnType, to);
    }
    LeadsToAppended(g3, g3.cur, [Br(|g.blocks| + 2)], to);
  }

  lemma IfLayouts(g: Gen, cond: Emitted, elseExists: bool, g0: Gen, g1: Gen, g2: Gen, g3: Gen, to: set<nat>)
    requires g.Valid() && g1.Valid() && g3.Valid() && |g1.blocks| > |g.blocks| + 2 && |g3.blocks| > |g.blocks| + 2 && |g3.scopes| > 1
    requires g0 == BeginIf(g.AddScope().Emit(cond), cond.tv.value, elseExists) && g0.layout <= g1.layout
    requires if elseExists then
               && g2 == BranchTo(g1, |g.blocks| + 2).Insert(|g.blocks| + 1).SetInsertPoint(|g.blocks| + 1)
               && g2.layout <= g3.layout
             else
               g2 == g1 && g3 == g1
    requires NewIn(g, EndIf(BranchTo(g3, |g.blocks| + 2), |g.blocks| + 2), to)
    ensures NewIn(g0, g1, to) && NewIn(g2, g3, to)
    ensures |g.blocks| in to && |g.blocks| + 2 in to && (elseExists ==> |g.blocks| + 1 in to)
  {
    var g' := EndIf(BranchTo(g3, |g.blocks| + 2), |g.blocks| + 2);
    assert g'.layout == g3.layout + [|g.blocks| + 2];
    assert g'.layout[|g3.layout|] == |g.blocks| + 2;
    assert g0.layout == g.layout + [|g.blocks|];
    assert g'.layout[|g.layout|] == |g.blocks|;
    if elseExists {
      assert g2.layout == g1.layout + [|g.blocks| + 1];
      assert g'.layout[|g1.layout|] == |g.blocks| + 1;
    }
    NewInPart(g, g0, g1, g', to);
    NewInPart(g, g2, g3, g', to);
  }

  lemma {:induction false} LeadsWhile(s: Stmt, g: Gen, funcs: Functions, returnType: Ty, to: set<nat>)
    requires g.Valid() && s.WhileStmt? && LowerWhile(s, g, funcs, returnType).Some?
    requires LeadsTo(g, to) && NewIn(g, LowerWhile(s, g, funcs, returnType).value, to)
    ensures LeadsTo(LowerWhile(s, g, funcs, returnType).value, to)
    decreases s, 0
  {
    hide LowerStmt, LowerExpr;
    var gc, cond, g0, g1 := WhileParts(s, g, funcs, returnType);
    SealedStmt(s.block, g0, funcs, returnType);
    WhileLayouts(g, gc, cond, g0, g1, to);
    LeadsBranchToNew(g.AddScope(), to);
    LeadsEmit(gc, s.condition, funcs, to);
    LeadsGoToNew(gc.Emit(cond), to);
    LeadsStmt(s.block, g0, funcs, returnType, to);
    LeadsEndWhile(g1, cond.tv.value, |g.blocks|, |g.blocks| + 1, to);
  }

  lemma LeadsGoToNew(g: Gen, to: set<nat>)
    requires g.Valid() && LeadsTo(g, to)
    ensures LeadsTo(GoToNew(g), to)
  {
  }

  lemma WhileLayouts(g: Gen, gc: Gen, cond: Emitted, g0: Gen, g1: Gen, to: set<nat>)
    requires g.Valid() && g1.Valid() && |g1.scopes| > 1 && |g1.blocks| > |g.blocks| + 1
    requires gc == BranchToNew(g.AddScope()) && g0 == GoToNew(gc.Emit(cond)) && g0.layout <= g1.layout
    requires NewIn(g, EndWhile(g1, cond.tv.value, |g.blocks|, |g.blocks| + 1), to)
    ensures NewIn(g0, g1, to) && |g.blocks| in to && |g.blocks| + 1 in to && |g1.blocks| in to
  {
    var n := |g.blocks|;
    var g' := EndWhile(g1, cond.tv.value, n, n + 1);
    assert g0.layout == g.layout + [n, n + 1];
    assert g'.layout == g1.layout + [|g1.blocks|];
    assert g'.layout[|g.layout|] == n && g'.layout[|g.layout| + 1] == n + 1 && g'.layout[|g1.layout|] == |g1.blocks|;
    NewInPart(g, g0, g1, g', to);
  }

  lemma LeadsEndWhile(g: Gen, cond: Operand, condBB: nat, bodyBB: nat, to: set<nat>)
    requires g.Valid() && condBB < |g.blocks| && |g.scopes| > 1 && LeadsTo(g, to)
    requires condBB in to && bodyBB in to && |g.blocks| in to
    ensures LeadsTo(EndWhile(g, cond, condBB, bodyBB), to)
  {
    var g1 := g.CreateInserted();
    LeadsToAppended(g1, condBB, [CondBr(cond, bodyBB, |g.blocks|)], to);
    LeadsToAppended(g1.AppendTo(condBB, [CondBr(cond, bodyBB, |g.blocks|)]), g.cur, [Br(condBB)], to);
  }

  lemma LeadsEndFor(g: Gen, cond: Operand, initBB: nat, bodyEnd: nat, stepBB: nat, to: set<nat>)
    requires g.Valid() && initBB + 1 < |g.blocks| && bodyEnd < |g.blocks| && stepBB < |g.blocks| && |g.scopes| > 1
    requires LeadsTo(g, to) && initBB + 1 in to && initBB + 2 in to && stepBB in to && |g.blocks| in to
    ensures LeadsTo(EndFor(g, cond, initBB, bodyEnd, stepBB), to)
  {
    var g1 := g.CreateInserted();
    LeadsToAppended(g1, initBB, [Br(initBB + 1)], to);
    var g2 := g1.AppendTo(initBB, [Br(initBB + 1)]);
    LeadsToAppended(g2, initBB + 1, [CondBr(cond, initBB + 2, |g.blocks|)], to);
    var g3 := g2.AppendTo(initBB + 1, [CondBr(cond, initBB + 2, |g.blocks|)]);
    LeadsToAppended(g3, bodyEnd, [Br(stepBB)], to);
    LeadsToAppended(g3.AppendTo(bodyEnd, [Br(stepBB)]), stepBB, [Br(initBB + 1)], to);
  }

  lemma LeadsInit(init: Option<VariableDef>, g: Gen, funcs: Functions, to: set<nat>)
    requires g.Valid() && LeadsTo(g, to) && LowerInit(init, g, funcs).Some?
    ensures LeadsTo(LowerInit(init, g, funcs).value, to)
  {
    if init.Some? {
      LeadsDef(init.value, g, funcs, to);
    }
  }

  lemma ForLayoutSeq(g: Gen, gi: Gen, gj: Gen, gc: Gen, cond: Emitted, g0: Gen, g1: Gen, gs: Gen, gt: Gen)
    requires g.Valid() && gj.Valid() && g1.Valid() && gt.Valid() && |gt.scopes| > 1 && |g1.blocks| > |g.blocks| + 2
    requires gi == BranchToNew(g.AddScope()) && |gj.blocks| == |gi.blocks| && gj.layout == gi.layout
    requires gc == GoToNew(gj) && g0 == GoToNew(gc.Emit(cond))
    requires g1.cur < |g1.blocks| && gs == GoToNew(g1)
    requires |gt.blocks| == |gs.blocks| && gt.layout == gs.layout
    ensures g0.layout == g.layout + [|g.blocks|, |g.blocks| + 1, |g.blocks| + 2]
    ensures EndFor(gt, cond.tv.value, |g.blocks|, g1.cur, |g1.blocks|).layout == g1.layout + [|g1.blocks|, |gt.blocks|]
  {
  }

  lemma ForLayouts(g: Gen, gi: Gen, gj: Gen, gc: Gen, cond: Emitted, g0: Gen, g1: Gen, gs: Gen, gt: Gen, to: set<nat>)
    requires g.Valid() && gj.Valid() && g1.Valid() && gt.Valid() && |gt.scopes| > 1 && |g1.blocks| > |g.blocks| + 2
    requires gi == BranchToNew(g.AddScope()) && |gj.blocks| == |gi.blocks| && gj.layout == gi.layout
    requires gc == GoToNew(gj) && g0 == GoToNew(gc.Emit(cond)) && g0.layout <= g1.layout
    requires gs == GoToNew(g1) && |gt.blocks| == |gs.blocks| && gt.layout == gs.layout
    requires NewIn(g, EndFor(gt, cond.tv.value, |g.blocks|, g1.cur, |g1.blocks|), to)
    ensures NewIn(g0, g1, to) && |g.blocks| in to && |g.blocks| + 1 in to && |g.blocks| + 2 in to
    ensures |g1.blocks| in to && |gt.blocks| in to
  {
    ForLayoutSeq(g, gi, gj, gc, cond, g0, g1, gs, gt);
    var n := |g.blocks|;
    var g' := EndFor(gt, cond.tv.value, n, g1.cur, |g1.blocks|);
    assert g'.layout[|g.layout|] == n && g'.layout[|g.layout| + 1] == n + 1 && g'.layout[|g.layout| + 2] == n + 2;
    assert g'.layout[|g1.layout|] == |g1.blocks| && g'.layout[|g1.layout| + 1] == |gt.blocks|;
    NewInPart(g, g0, g1, g', to);
  }

  lemma {:induction false} LeadsFor(s: Stmt, g: Gen, funcs: Functions, returnType: Ty, to: set<nat>)
    requires g.Valid() && s.ForStmt? && LowerFor(s, g, funcs, returnType).Some?
    requires LeadsTo(g, to) && NewIn(g, LowerFor(s, g, funcs, returnType).value, to)
    ensures LeadsTo(LowerFor(s, g, funcs, returnType).value, to)
    decreases s, 0
  {
    var gi, gj, gc, cond, g0, g1, gs, gt := ForParts(s, g, funcs, returnType);
    InitGrows(s.init, gi, funcs);
    StepGrows(s.step, gs, funcs);
    SealedStmt(s.block, g0, funcs, returnType);
    ForLayouts(g, gi, gj, gc, cond, g0, g1, gs, gt, to);
    LeadsForHead(s.init, s.end, g, gi, gj, gc, cond, g0, funcs, to);
    LeadsStmt(s.block, g0, funcs, returnType, to);
    LeadsForTail(s.step, g, g1, gs, gt, cond, funcs, to);
  }

  lemma LeadsForTail(
    step: Option<Expr>, g: Gen, g1: Gen, gs: Gen, gt: Gen, cond: Emitted, funcs: Functions, to: set<nat>)
    requires g1.Valid() && gt.Valid() && |gt.scopes| > 1 && |g1.blocks| > |g.blocks| + 2 && |gt.blocks| > |g1.blocks|
    requires LeadsTo(g1, to) && gs == GoToNew(g1) && LowerStep(step, gs, funcs) == Some(gt)
    requires |g.blocks| + 1 in to && |g.blocks| + 2 in to && |g1.blocks| in to && |gt.blocks| in to
    ensures LeadsTo(EndFor(gt, cond.tv.value, |g.blocks|, g1.cur, |g1.blocks|), to)
  {
    LeadsGoToNew(g1, to);
    LeadsStep(step, gs, funcs, to);
    LeadsEndFor(gt, cond.tv.value, |g.blocks|, g1.cur, |g1.blocks|, to);
  }

  lemma LeadsForHead(
    init: Option<VariableDef>, end: Expr, g: Gen, gi: Gen, gj: Gen, gc: Gen, cond: Emitted, g0: Gen,
    funcs: Functions, to: set<nat>)
    requires g.Valid() && LeadsTo(g, to) && |g.blocks| in to
    requires gi == BranchToNew(g.AddScope()) && LowerInit(init, gi, funcs) == Some(gj)
    requires gc == GoToNew(gj) && LowerExpr(end, gc.scopes, funcs, gc.next) == Some(cond) && g0 == GoToNew(gc.Emit(cond))
    ensures LeadsTo(g0, to)
  {
    LeadsBranchToNew(g.AddScope(), to);
    LeadsInit(init, gi, funcs, to);
    LeadsGoToNew(gj, to);
    LeadsEmit(gc, end, funcs, to);
    LeadsGoToNew(gc.Emit(cond), to);
  }
}
