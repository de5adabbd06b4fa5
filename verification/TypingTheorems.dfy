/** Exactly the well-typed functions are compiled. */
module TypingTheorems {
  import opened Options
  import opened ProgramSyntax
  import opened Typing
  import Ir
  import opened Lowering
  import opened CompiledFunction

  /** Looking a name up from the innermost scope outwards finds what `vars` says. */
  ghost predicate Sees(scopes: seq<Scope>, vars: Scope) {
    forall s :: Find(scopes, s) == if s in vars then Some(vars[s]) else None
  }

  /** A lowered expression has the type of the source, and can be stored to if it is assignable. */
  predicate Typed(em: Option<Emitted>, t: Option<Ty>, assignable: bool) {
    match em
    case None => t == None
    case Some(x) =>
      t == Some(x.tv.ty) && (assignable <==> x.tv.cat == LValue && x.tv.isMutable && x.tv.value.Loaded?)
  }

  lemma BinaryTyped(op: BinaryOp, a: TypedValue, b: TypedValue, n: nat)
    ensures match LowerBinary(op, a, b, n)
      case None => a.ty != b.ty || BinaryType(op, a.ty) == None
      case Some((_, r)) => a.ty == b.ty && BinaryType(op, a.ty) == Some(r.ty) && r.cat == RValue
  {
  }

  lemma UnaryTyped(op: UnaryOp, a: TypedValue, n: nat)
    ensures match LowerUnary(op, a, n)
      case None => UnaryType(op, a.ty) == None
      case Some((_, r)) => UnaryType(op, a.ty) == Some(r.ty) && r.cat == RValue
  {
  }

  lemma AssignTyped(op: AssignOp, a: TypedValue, b: TypedValue, n: nat)
    ensures LowerAssign(op, a, b, n).Some? <==>
      a.cat == LValue && a.isMutable && a.value.Loaded? && MayAssign(op, a.ty, b.ty)
  {
    if op.Compound? { BinaryTyped(op.op, a, b, n); }
  }

  lemma {:induction false} ExprTyped(e: Expr, scopes: seq<Scope>, vars: Scope, funcs: Functions, n: nat)
    requires Sees(scopes, vars)
    ensures Typed(LowerExpr(e, scopes, funcs, n), TypeOfExpr(e, vars, funcs), Assignable(e, vars))
    decreases e
  {
    hide LowerBinary, LowerUnary, LowerAssign, BinaryType, UnaryType, MayAssign;
    match e {
      case Literal(_) =>
      case VariableRef(_) =>
      case Unary(op, operand) =>
        ExprTyped(operand, scopes, vars, funcs, n);
        var a := LowerExpr(operand, scopes, funcs, n);
        if a.Some? { UnaryTyped(op, a.value.tv, a.value.next); }
      case Cast(inner, _) => ExprTyped(inner, scopes, vars, funcs, n);
      case Binary(op, lhs, rhs) =>
        ExprTyped(lhs, scopes, vars, funcs, n);
        var a := LowerExpr(lhs, scopes, funcs, n);
        if a.Some? {
          ExprTyped(rhs, scopes, vars, funcs, a.value.next);
          var b := LowerExpr(rhs, scopes, funcs, a.value.next);
          if b.Some? { BinaryTyped(op, a.value.tv, b.value.tv, b.value.next); }
        }
      case Assignment(op, target, source) =>
        ExprTyped(target, scopes, vars, funcs, n);
        var a := LowerExpr(target, scopes, funcs, n);
        if a.Some? {
          ExprTyped(source, scopes, vars, funcs, a.value.next);
          var b := LowerExpr(source, scopes, funcs, a.value.next);
          if b.Some? { AssignTyped(op, a.value.tv, b.value.tv, b.value.next); }
        }
      case Call(_, args) => ArgsTyped(args, scopes, vars, funcs, n);
    }
  }

  lemma {:induction false} ArgsTyped(args: seq<Expr>, scopes: seq<Scope>, vars: Scope, funcs: Functions, n: nat)
    requires Sees(scopes, vars)
    ensures match LowerArgs(args, scopes, funcs, n)
      case None => TypesOf(args, vars, funcs) == None
      case Some(a) => TypesOf(args, vars, funcs) == Some(Types(a.tvs))
    decreases args
  {
    if args != [] {
      ExprTyped(args[0], scopes, vars, funcs, n);
      var a := LowerExpr(args[0], scopes, funcs, n);
      if a.Some? {
        ArgsTyped(args[1..], scopes, vars, funcs, a.value.next);
        var b := LowerArgs(args[1..], scopes, funcs, a.value.next);
        if b.Some? { assert ([a.value.tv] + b.value.tvs)[1..] == b.value.tvs; }
      }
    }
  }

  // Statements.

  /** Only the innermost scope may have changed. */
  predicate SameBelow(a: seq<Scope>, b: seq<Scope>) {
    |a| == |b| && a != [] && a[..|a| - 1] == b[..|b| - 1]
  }

  /** Lowered exactly if well typed, and then with the same variables behind it. */
  ghost predicate Agrees(scopes: seq<Scope>, r: Option<Gen>, o: Option<Scope>) {
    match o
    case None => r.None?
    case Some(vars) => r.Some? && Sees(r.value.scopes, vars) && SameBelow(scopes, r.value.scopes)
  }

  lemma SeesInner(scopes: seq<Scope>, vars: Scope)
    requires Sees(scopes, vars)
    ensures Sees(scopes + [map[]], vars)
  {
    assert (scopes + [map[]])[..|scopes|] == scopes;
  }

  lemma SeesDefined(scopes: seq<Scope>, vars: Scope, s: Slot, sym: Symbol)
    requires scopes != [] && Sees(scopes, vars) && s !in vars
    ensures var k := |scopes| - 1; s !in scopes[k] && Sees(scopes[k := Extended(scopes[k], s, sym)], vars[s := sym])
  {
    var k := |scopes| - 1;
    assert Find(scopes, s) == None;
    var after := scopes[k := Extended(scopes[k], s, sym)];
    assert after[..k] == scopes[..k];
    forall t ensures Find(after, t) == if t in vars[s := sym] then Some(vars[s := sym][t]) else None {
      assert Find(scopes, t) == if t in vars then Some(vars[t]) else None;
    }
  }

  lemma DefTyped(def: VariableDef, g: Gen, vars: Scope, funcs: Functions)
    requires g.Valid() && Sees(g.scopes, vars)
    ensures Agrees(g.scopes, LowerDef(def, g, funcs), Defined(def, vars, funcs))
  {
    if def.init.Some? { ExprTyped(def.init.value, g.scopes, vars, funcs, g.next); }
    assert Find(g.scopes, def.slot).Some? <==> def.slot in vars;
    var o := Defined(def, vars, funcs);
    if o.Some? { SeesDefined(g.scopes, vars, def.slot, o.value[def.slot]); }
  }

  lemma InitTyped(init: Option<VariableDef>, g: Gen, vars: Scope, funcs: Functions)
    requires g.Valid() && Sees(g.scopes, vars)
    ensures Agrees(g.scopes, LowerInit(init, g, funcs), if init.Some? then Defined(init.value, vars, funcs) else Some(vars))
  {
    if init.Some? { DefTyped(init.value, g, vars, funcs); }
  }

  lemma StepTyped(step: Option<Expr>, g: Gen, vars: Scope, funcs: Functions)
    requires g.Valid() && Sees(g.scopes, vars)
    ensures LowerStep(step, g, funcs).Some? <==> (step.Some? ==> TypeOfExpr(step.value, vars, funcs).Some?)
    ensures LowerStep(step, g, funcs).Some? ==> LowerStep(step, g, funcs).value.scopes == g.scopes
  {
    if step.Some? { ExprTyped(step.value, g.scopes, vars, funcs, g.next); }
  }

  lemma ConditionTyped(c: Expr, g: Gen, vars: Scope, funcs: Functions)
    requires g.Valid() && Sees(g.scopes, vars)
    ensures LowerCondition(c, g, funcs).Some? <==> HasType(c, BoolT, vars, funcs)
  {
    ExprTyped(c, g.scopes, vars, funcs, g.next);
  }

  lemma ReturnTyped(value: Option<Expr>, g: Gen, vars: Scope, funcs: Functions, result: Ty)
    requires g.Valid() && Sees(g.scopes, vars)
    ensures LowerReturn(value, g, funcs, result).Some? <==> (value.Some? ==> HasType(value.value, result, vars, funcs))
    ensures LowerReturn(value, g, funcs, result).Some? ==> LowerReturn(value, g, funcs, result).value.scopes == g.scopes
  {
    if value.Some? { ExprTyped(value.value, g.scopes, vars, funcs, g.next); }
  }

  lemma {:induction false} StmtTyped(s: Stmt, g: Gen, vars: Scope, funcs: Functions, result: Ty)
    requires g.Valid() && Sees(g.scopes, vars)
    ensures Agrees(g.scopes, LowerStmt(s, g, funcs, result), Checked(s, vars, funcs, result))
    decreases s, 2
  {
    hide Sees;
    match s {
      case EmptyStmt =>
      case ExprStmt(e) => StepTyped(Some(e), g, vars, funcs);
      case DefStmt(def) => DefTyped(def, g, vars, funcs);
      case BlockStmt(nodes) => BlockTyped(nodes, g, vars, funcs, result);
      case IfStmt(_, _, _) => IfTyped(s, g, vars, funcs, result);
      case WhileStmt(_, _) => WhileTyped(s, g, vars, funcs, result);
      case ForStmt(_, _, _, _) => ForTyped(s, g, vars, funcs, result);
      case ReturnStmt(value) => ReturnTyped(value, g, vars, funcs, result);
    }
  }

  lemma {:induction false} AllTyped(ss: seq<Stmt>, g: Gen, vars: Scope, funcs: Functions, result: Ty)
    requires g.Valid() && Sees(g.scopes, vars)
    ensures Agrees(g.scopes, LowerAll(ss, g, funcs, result), CheckedAll(ss, vars, funcs, result))
    decreases ss, 0
  {
    hide Sees;
    if ss != [] {
      StmtTyped(ss[0], g, vars, funcs, result);
      var r := LowerStmt(ss[0], g, funcs, result);
      if r.Some? { AllTyped(ss[1..], r.value, Checked(ss[0], vars, funcs, result).value, funcs, result); }
    }
  }

  /** Leaving the scope that was entered leads back to the scopes before. */
  lemma Left(scopes: seq<Scope>, inner: seq<Scope>)
    requires SameBelow(scopes + [map[]], inner)
    ensures inner[..|inner| - 1] == scopes
  {
    assert (scopes + [map[]])[..|scopes|] == scopes;
  }

  lemma {:induction false} BlockTyped(nodes: seq<Stmt>, g: Gen, vars: Scope, funcs: Functions, result: Ty)
    requires g.Valid() && Sees(g.scopes, vars)
    ensures Agrees(g.scopes, LowerStmt(BlockStmt(nodes), g, funcs, result), Checked(BlockStmt(nodes), vars, funcs, result))
    decreases nodes, 1
  {
    hide Sees;
    SeesInner(g.scopes, vars);
    AllTyped(nodes, g.AddScope(), vars, funcs, result);
    var r := LowerAll(nodes, g.AddScope(), funcs, result);
    if r.Some? { Left(g.scopes, r.value.scopes); }
  }

  lemma {:induction false} IfTyped(s: Stmt, g: Gen, vars: Scope, funcs: Functions, result: Ty)
    requires g.Valid() && s.IfStmt? && Sees(g.scopes, vars)
    ensures Agrees(g.scopes, LowerIf(s, g, funcs, result), Checked(s, vars, funcs, result))
    decreases s, 1
  {
    hide Sees, LowerStmt, LowerExpr, LowerBranches;
    var ga := g.AddScope();
    SeesInner(g.scopes, vars);
    ConditionTyped(s.condition, ga, vars, funcs);
    var cond := LowerCondition(s.condition, ga, funcs);
    if cond.Some? {
      var g0 := BeginIf(ga.Emit(cond.value), cond.value.tv.value, s.elseBlock != EmptyStmt);
      BranchesTyped(s, g0, |g.blocks| + 1, vars, funcs, result);
      var r := LowerBranches(s, g0, |g.blocks| + 1, funcs, result);
      if r.Some? { assert ga.scopes[..|g.scopes|] == g.scopes; }
    }
  }

  lemma {:induction false} BranchesTyped(s: Stmt, g: Gen, elseBB: nat, vars: Scope, funcs: Functions, result: Ty)
    requires g.Valid() && s.IfStmt? && elseBB + 1 < |g.blocks| && |g.scopes| > 1 && Sees(g.scopes, vars)
    ensures var o := match Checked(s.ifBlock, vars, funcs, result)
        case None => None
        case Some(vars1) => Checked(s.elseBlock, vars1, funcs, result);
      LowerBranches(s, g, elseBB, funcs, result).Some? == o.Some?
    ensures var r := LowerBranches(s, g, elseBB, funcs, result); r.Some? ==> r.value.scopes == g.scopes[..|g.scopes| - 1]
    decreases s, 0
  {
    hide Sees;
    StmtTyped(s.ifBlock, g, vars, funcs, result);
    var r := LowerStmt(s.ifBlock, g, funcs, result);
    if r.Some? {
      var vars1 := Checked(s.ifBlock, vars, funcs, result).value;
      var g1 := BranchTo(r.value, elseBB + 1);
      if s.elseBlock != EmptyStmt {
        StmtTyped(s.elseBlock, g1.Insert(elseBB).SetInsertPoint(elseBB), vars1, funcs, result);
      }
    }
  }

  lemma {:induction false} WhileTyped(s: Stmt, g: Gen, vars: Scope, funcs: Functions, result: Ty)
    requires g.Valid() && s.WhileStmt? && Sees(g.scopes, vars)
    ensures Agrees(g.scopes, LowerWhile(s, g, funcs, result), Checked(s, vars, funcs, result))
    decreases s, 1
  {
    hide Sees, LowerStmt, LowerExpr;
    var g0 := BranchToNew(g.AddScope());
    SeesInner(g.scopes, vars);
    ConditionTyped(s.condition, g0, vars, funcs);
    var cond := LowerCondition(s.condition, g0, funcs);
    if cond.Some? {
      var g1 := GoToNew(g0.Emit(cond.value));
      WhileBodyTyped(s, g, g1, vars, funcs, result);
    }
  }

  lemma {:induction false} WhileBodyTyped(s: Stmt, g: Gen, g1: Gen, vars: Scope, funcs: Functions, result: Ty)
    requires s.WhileStmt? && g1.Valid() && g1.scopes == g.scopes + [map[]] && Sees(g1.scopes, vars)
    ensures var r := LowerStmt(s.block, g1, funcs, result);
      (r.Some? <==> Checked(s.block, vars, funcs, result).Some?)
      && (r.Some? ==> |r.value.scopes| > 0 && r.value.scopes[..|r.value.scopes| - 1] == g.scopes)
    decreases s, 0
  {
    StmtTyped(s.block, g1, vars, funcs, result);
    var r := LowerStmt(s.block, g1, funcs, result);
    if r.Some? { Left(g.scopes, r.value.scopes); }
  }

  lemma {:induction false} ForTyped(s: Stmt, g: Gen, vars: Scope, funcs: Functions, result: Ty)
    requires g.Valid() && s.ForStmt? && Sees(g.scopes, vars)
    ensures Agrees(g.scopes, LowerFor(s, g, funcs, result), Checked(s, vars, funcs, result))
    decreases s, 1
  {
    hide Sees, LowerStmt, LowerExpr, LowerCondition, LowerStep, LowerDef, Defined;
    var gi := BranchToNew(g.AddScope());
    SeesInner(g.scopes, vars);
    InitTyped(s.init, gi, vars, funcs);
    var init := LowerInit(s.init, gi, funcs);
    if init.Some? {
      var vars1 := if s.init.Some? then Defined(s.init.value, vars, funcs).value else vars;
      ForBodyTyped(s, g, init.value, vars1, funcs, result);
    }
  }

  /** The rest of a for loop, behind its initialisation. */
  lemma {:induction false} ForBodyTyped(s: Stmt, g: Gen, gj: Gen, vars: Scope, funcs: Functions, result: Ty)
    requires g.Valid() && gj.Valid() && s.ForStmt? && Sees(gj.scopes, vars) && SameBelow(g.scopes + [map[]], gj.scopes)
    requires LowerInit(s.init, BranchToNew(g.AddScope()), funcs) == Some(gj)
    ensures LowerFor(s, g, funcs, result).Some? <==>
      HasType(s.end, BoolT, vars, funcs) && Checked(s.block, vars, funcs, result).Some?
      && (s.step.Some? ==> TypeOfExpr(s.step.value, Checked(s.block, vars, funcs, result).value, funcs).Some?)
    ensures LowerFor(s, g, funcs, result).Some? ==> LowerFor(s, g, funcs, result).value.scopes == g.scopes
    decreases s, 0
  {
    hide Sees;
    var g2 := GoToNew(gj);
    ConditionTyped(s.end, g2, vars, funcs);
    var cond := LowerCondition(s.end, g2, funcs);
    if cond.Some? {
      var g3 := GoToNew(g2.Emit(cond.value));
      StmtTyped(s.block, g3, vars, funcs, result);
      var r := LowerStmt(s.block, g3, funcs, result);
      if r.Some? {
        StepTyped(s.step, GoToNew(r.value), Checked(s.block, vars, funcs, result).value, funcs);
        Left(g.scopes, r.value.scopes);
      }
    }
  }

  // Functions.

  lemma {:induction false} ParamsTyped(params: seq<Param>, i: nat, g: Gen, globals: Scope, own: Scope)
    requires g.Valid() && g.scopes == [globals, own]
    ensures var r := LowerParams(params, i, g);
      (r.Some? <==> forall j :: 0 <= j < |params| ==> params[j].ty != VoidT)
      && (r.Some? ==> r.value.scopes == [globals, ParamScope(params) + own])
    decreases params
  {
    if params == [] {
      assert ParamScope(params) + own == own;
    } else if params[0].ty != VoidT {
      var (s, sym) := (params[0].slot, Symbol(params[0].ty, false));
      var g1 := g.EntryAlloca(s).Declare(s, sym).Append([Ir.StoreTo(Ir.Temp(i), s)]);
      var own1 := if s in own then own else own[s := sym];
      assert g1.scopes == [globals, own1];
      ParamsTyped(params[1..], i + 1, g1, globals, own1);
      assert ParamScope(params[1..]) + own1 == ParamScope(params) + own;
      forall j | 0 < j < |params| ensures params[j] == params[1..][j - 1] {}
    }
  }

  lemma SeesParams(globals: Scope, own: Scope)
    ensures Sees([globals, own], globals + own)
  {
    var scopes := [globals, own];
    assert scopes[..1] == [globals] && [globals][..0] == [];
    forall s ensures Find(scopes, s) == if s in globals + own then Some((globals + own)[s]) else None {
      assert Find([], s) == None;
      assert Find([globals], s) == if s in globals then Some(globals[s]) else None;
    }
  }

  /** Code is generated for a function if and only if it is well typed. */
  lemma CompiledIffWellTyped(f: FunctionDef, globals: Scope, funcs: Functions)
    ensures LowerFunction(f, globals, funcs).Some? <==> WellTyped(f, globals, funcs)
    ensures Compile(f, globals, funcs).Some? <==> WellTyped(f, globals, funcs)
  {
    var g0 := Start(globals, |f.params|);
    ParamsTyped(f.params, 0, g0, globals, map[]);
    var r := LowerParams(f.params, 0, g0);
    if r.Some? {
      var own := ParamScope(f.params);
      assert own + map[] == own;
      SeesParams(globals, own);
      StmtTyped(BlockStmt(f.body), r.value, globals + own, funcs, f.returnType);
    }
  }
}
