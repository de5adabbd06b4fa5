/** What code generation does to the function under construction, as functions: the
    instructions an expression becomes, and the blocks a statement leaves behind. */
module Lowering {
  import opened Options
  import opened ProgramSyntax
  import opened Ir

  function Extended(scope: Scope, s: Slot, sym: Symbol): Scope {
    scope[s := sym]
  }

  /** Looks a variable up from the innermost scope outwards. */
  function Find(scopes: seq<Scope>, s: Slot): Option<Symbol> {
    if scopes == [] then None
    else
      var top := scopes[|scopes| - 1];
      if s in top then Some(top[s]) else Find(scopes[..|scopes| - 1], s)
  }

  datatype Category = LValue | RValue

  datatype TypedValue = TypedValue(ty: Ty, value: Operand, cat: Category, isMutable: bool)

  /** Straight-line code for an expression, the next free register, and where its value is. */
  datatype Emitted = Emitted(code: Code, next: nat, tv: TypedValue)

  datatype EmittedArgs = EmittedArgs(code: Code, next: nat, tvs: seq<TypedValue>)

  function TypeOf(v: Value): Ty {
    match v
    case VoidV => VoidT
    case BoolV(_) => BoolT
    case IntV(w, _) => IntT(w)
  }

  function IntegralOpcode(op: BinaryOp): Option<Opcode> {
    match op
    case Add => Some(NswAdd)
    case Sub => Some(NswSub)
    case Mul => Some(NswMul)
    case Div => Some(SDiv)
    case Mod => Some(SRem)
    case Rem => Some(SRem)
    case Eq => Some(ICmpEq)
    case NotEq => Some(ICmpNe)
    case Greater => Some(ICmpSgt)
    case GreatEq => Some(ICmpSge)
    case Less => Some(ICmpSlt)
    case LessEq => Some(ICmpSle)
    case And => None
    case Or => None
  }

  function BoolOpcode(op: BinaryOp): Option<Opcode> {
    match op
    case Eq => Some(ICmpEq)
    case NotEq => Some(ICmpNe)
    case And => Some(AndI)
    case Or => Some(OrI)
    case _ => None
  }

  /** The instruction for an operator on operands of type t; void has no operations. */
  function OpcodeFor(op: BinaryOp, t: Ty): Option<Opcode> {
    match t
    case VoidT => None
    case BoolT => BoolOpcode(op)
    case IntT(_) => IntegralOpcode(op)
  }

  predicate IsComparison(op: BinaryOp) {
    op in {Eq, NotEq, Less, Greater, LessEq, GreatEq}
  }

  /** Both operands must have one type. */
  function LowerBinary(op: BinaryOp, a: TypedValue, b: TypedValue, next: nat): Option<(Instr, TypedValue)> {
    if a.ty != b.ty then None else
    match OpcodeFor(op, a.ty)
    case None => None
    case Some(opcode) =>
      Some((BinaryI(next, opcode, a.value, b.value),
            TypedValue(if IsComparison(op) then BoolT else a.ty, Temp(next), RValue, a.isMutable)))
  }

  /** Unary plus casts to the type named `int`. Only an alias can have that name, and there are
      no aliases here, so it never succeeds. */
  function LowerUnary(op: UnaryOp, a: TypedValue, next: nat): Option<(Instr, TypedValue)> {
    var result := TypedValue(a.ty, Temp(next), RValue, a.isMutable);
    match (op, a.ty)
    case (Minus, IntT(_)) => Some((NegI(next, a.value), result))
    case (Not, IntT(_)) => Some((XorOnes(next, a.value), result))
    case (Not, BoolT) => Some((XorOnes(next, a.value), result))
    case _ => None
  }

  /** The code storing b, or the compound result, to the variable a was loaded from.
      An assignment to a bool does not compare the two types. */
  function LowerAssign(op: AssignOp, a: TypedValue, b: TypedValue, next: nat): Option<(Code, nat)> {
    if a.cat == RValue || !a.isMutable || !a.value.Loaded? then None else
    match (op, a.ty)
    case (_, VoidT) => None
    case (Simple, BoolT) => Some(([StoreTo(b.value, a.value.slot)], next))
    case (Simple, IntT(_)) =>
      if b.ty != a.ty then None else Some(([StoreTo(b.value, a.value.slot)], next))
    case (Compound(bop), IntT(_)) =>
      if bop !in {Add, Sub, Mul, Div, Mod} then None else
      (match LowerBinary(bop, a, b, next)
       case None => None
       case Some((instr, r)) =>
         if r.ty != a.ty then None else Some(([instr, StoreTo(r.value, a.value.slot)], next + 1)))
    case _ => None
  }

  function LowerExpr(e: Expr, scopes: seq<Scope>, funcs: Functions, next: nat): Option<Emitted>
    decreases e
  {
    match e
    case Literal(v) => Some(Emitted([], next, TypedValue(TypeOf(v), Constant(v), RValue, true)))
    case VariableRef(s) =>
      (match Find(scopes, s)
       case None => None
       case Some(sym) =>
         Some(Emitted([Load(next, s)], next + 1, TypedValue(sym.ty, Loaded(next, s), LValue, sym.isMutable))))
    case Unary(op, operand) =>
      (match LowerExpr(operand, scopes, funcs, next)
       case None => None
       case Some(a) =>
         match LowerUnary(op, a.tv, a.next)
         case None => None
         case Some((instr, tv)) => Some(Emitted(a.code + [instr], a.next + 1, tv)))
    case Binary(op, lhs, rhs) =>
      (match LowerExpr(lhs, scopes, funcs, next)
       case None => None
       case Some(a) =>
         match LowerExpr(rhs, scopes, funcs, a.next)
         case None => None
         case Some(b) =>
           match LowerBinary(op, a.tv, b.tv, b.next)
           case None => None
           case Some((instr, tv)) => Some(Emitted(a.code + b.code + [instr], b.next + 1, tv)))
    case Assignment(op, target, source) =>
      (match LowerExpr(target, scopes, funcs, next)
       case None => None
       case Some(a) =>
         match LowerExpr(source, scopes, funcs, a.next)
         case None => None
         case Some(b) =>
           match LowerAssign(op, a.tv, b.tv, b.next)
           case None => None
           // the value of the assignment is the load of its left side
           case Some((code, next')) => Some(Emitted(a.code + b.code + code, next', a.tv)))
    case Cast(inner, to) =>
      (match LowerExpr(inner, scopes, funcs, next)
       case None => None
       case Some(a) =>
         if a.tv.ty.IntT? && to.IntT? then
           Some(Emitted(a.code + [IntCast(a.next, a.tv.value, to.width)], a.next + 1,
                        TypedValue(to, Temp(a.next), RValue, a.tv.isMutable)))
         else None)
    case Call(f, args) =>
      if f !in funcs then None else
      match LowerArgs(args, scopes, funcs, next)
      case None => None
      case Some(a) =>
        if Types(a.tvs) != funcs[f].params then None
        else
          Some(Emitted(a.code + [CallI(a.next, f, Operands(a.tvs))], a.next + 1,
                       TypedValue(funcs[f].result, Temp(a.next), RValue, false)))
  }

  function LowerArgs(args: seq<Expr>, scopes: seq<Scope>, funcs: Functions, next: nat): Option<EmittedArgs>
    decreases args
  {
    if args == [] then Some(EmittedArgs([], next, [])) else
    match LowerExpr(args[0], scopes, funcs, next)
    case None => None
    case Some(a) =>
      match LowerArgs(args[1..], scopes, funcs, a.next)
      case None => None
      case Some(b) => Some(EmittedArgs(a.code + b.code, b.next, [a.tv] + b.tvs))
  }

  function Types(tvs: seq<TypedValue>): seq<Ty> {
    if tvs == [] then [] else [tvs[0].ty] + Types(tvs[1..])
  }

  function Operands(tvs: seq<TypedValue>): seq<Operand> {
    if tvs == [] then [] else [tvs[0].value] + Operands(tvs[1..])
  }

  /** The function under construction. `blocks` holds every block created and `layout`
      the ones inserted into the function, in order. Allocas go to the front of the entry
      block, so they are kept apart from the rest of it. `cur` is the insert point: new
      instructions go to the end of that block. */
  datatype Gen = Gen(
    blocks: seq<Code>, layout: seq<nat>, allocas: seq<Slot>, cur: nat, next: nat, scopes: seq<Scope>)
  {
    predicate Valid() {
      cur < |blocks| && scopes != []
    }

    function AppendTo(b: nat, code: Code): Gen
      requires b < |blocks|
    {
      this.(blocks := blocks[b := blocks[b] + code])
    }

    function Append(code: Code): Gen
      requires Valid()
    {
      AppendTo(cur, code)
    }

    function Emit(e: Emitted): Gen
      requires Valid()
    {
      Append(e.code).(next := e.next)
    }

    /** Creates an empty block that is not yet part of the function. */
    function Create(): Gen {
      this.(blocks := blocks + [[]])
    }

    function Insert(b: nat): Gen {
      this.(layout := layout + [b])
    }

    /** Creates a block at the end of the function; its number is |blocks|. */
    function CreateInserted(): Gen {
      Create().Insert(|blocks|)
    }

    function SetInsertPoint(b: nat): Gen {
      this.(cur := b)
    }

    function AddScope(): Gen {
      this.(scopes := scopes + [map[]])
    }

    function RemoveTopScope(): Gen
      requires scopes != []
    {
      this.(scopes := scopes[..|scopes| - 1])
    }

    /** As a map insertion, it keeps the symbol that is there. */
    function Declare(s: Slot, sym: Symbol): Gen
      requires scopes != []
    {
      var top: Scope := scopes[|scopes| - 1];
      if s in top then this else this.(scopes := scopes[|scopes| - 1 := Extended(top, s, sym)])
    }

    function EntryAlloca(s: Slot): Gen {
      this.(allocas := [s] + allocas)
    }
  }

  function LowerDef(def: VariableDef, g: Gen, funcs: Functions): Option<Gen>
    requires g.Valid()
  {
    var init := match def.init
      case Some(e) => LowerExpr(e, g.scopes, funcs, g.next)
      case None =>
        match def.declared
        case None => None
        case Some(t) => if t == VoidT then None else Some(Emitted([], g.next, TypedValue(t, Constant(ZeroOf(t)), RValue, true)));
    match init
    case None => None
    case Some(i) =>
      var ty := def.declared.GetOr(i.tv.ty);
      if ty == VoidT || i.tv.ty != ty || Find(g.scopes, def.slot).Some? then None
      else
        Some(g.Emit(i).EntryAlloca(def.slot).Append([StoreTo(i.tv.value, def.slot)])
             .Declare(def.slot, Symbol(ty, def.isMutable)))
  }

  /** A condition has to be a bool: no type converts to bool implicitly. */
  function LowerCondition(c: Expr, g: Gen, funcs: Functions): Option<Emitted> {
    match LowerExpr(c, g.scopes, funcs, g.next)
    case None => None
    case Some(e) => if e.tv.ty == BoolT then Some(e) else None
  }

  /** The blocks of an if, once its condition is in place. */
  function BeginIf(g: Gen, cond: Operand, elseExists: bool): (r: Gen)
    requires g.Valid()
    ensures r.Valid() && |r.blocks| == |g.blocks| + 3 && r.scopes == g.scopes
  {
    var thenBB := |g.blocks|;
    var (elseBB, mergeBB) := (thenBB + 1, thenBB + 2);
    g.CreateInserted().Create().Create()
      .Append([CondBr(cond, thenBB, if elseExists then elseBB else mergeBB)])
      .SetInsertPoint(thenBB)
  }

  function BranchTo(g: Gen, b: nat): (r: Gen)
    requires g.Valid()
    ensures r.Valid() && |r.blocks| == |g.blocks| && r.scopes == g.scopes
  {
    g.Append([Br(b)])
  }

  /** Branches to a new block and goes on there. */
  function BranchToNew(g: Gen): (r: Gen)
    requires g.Valid()
    ensures r.Valid() && |r.blocks| == |g.blocks| + 1 && r.scopes == g.scopes
  {
    BranchTo(g.CreateInserted(), |g.blocks|).SetInsertPoint(|g.blocks|)
  }

  /** Goes on in a new block, leaving the current one without a terminator for now. */
  function GoToNew(g: Gen): (r: Gen)
    requires g.Valid()
    ensures r.Valid() && |r.blocks| == |g.blocks| + 1 && r.scopes == g.scopes
  {
    g.CreateInserted().SetInsertPoint(|g.blocks|)
  }

  function EndWhile(g: Gen, cond: Operand, condBB: nat, bodyBB: nat): (r: Gen)
    requires g.Valid() && condBB < |g.blocks| && |g.scopes| > 1
    ensures r.Valid() && |r.blocks| == |g.blocks| + 1 && |r.scopes| == |g.scopes| - 1
  {
    var (bodyEnd, endBB) := (g.cur, |g.blocks|);
    g.CreateInserted()
      .AppendTo(condBB, [CondBr(cond, bodyBB, endBB)])
      .AppendTo(bodyEnd, [Br(condBB)])
      .SetInsertPoint(endBB).RemoveTopScope()
  }

  function EndFor(g: Gen, cond: Operand, initBB: nat, bodyEnd: nat, stepBB: nat): (r: Gen)
    requires g.Valid() && initBB + 1 < |g.blocks| && bodyEnd < |g.blocks| && stepBB < |g.blocks| && |g.scopes| > 1
    ensures r.Valid() && |r.blocks| == |g.blocks| + 1 && |r.scopes| == |g.scopes| - 1
  {
    var (condBB, bodyBB, endBB) := (initBB + 1, initBB + 2, |g.blocks|);
    g.CreateInserted()
      .AppendTo(initBB, [Br(condBB)])
      .AppendTo(condBB, [CondBr(cond, bodyBB, endBB)])
      .AppendTo(bodyEnd, [Br(stepBB)])
      .AppendTo(stepBB, [Br(condBB)])
      .SetInsertPoint(endBB).RemoveTopScope()
  }

  function LowerStep(step: Option<Expr>, g: Gen, funcs: Functions): (r: Option<Gen>)
    requires g.Valid()
    ensures r.Some? ==> r.value.Valid() && |r.value.blocks| == |g.blocks| && r.value.scopes == g.scopes
  {
    match step
    case None => Some(g)
    case Some(e) =>
      match LowerExpr(e, g.scopes, funcs, g.next)
      case None => None
      case Some(s) => Some(g.Emit(s))
  }

  function LowerInit(init: Option<VariableDef>, g: Gen, funcs: Functions): (r: Option<Gen>)
    requires g.Valid()
    ensures r.Some? ==> r.value.Valid() && |r.value.blocks| == |g.blocks| && |r.value.scopes| == |g.scopes|
  {
    match init
    case None => Some(g)
    case Some(def) => LowerDef(def, g, funcs)
  }

  /** Each statement leaves the function valid, with no block or scope lost. */
  ghost predicate Grown(g: Gen, r: Option<Gen>) {
    r.Some? ==> r.value.Valid() && |r.value.blocks| >= |g.blocks| && |r.value.scopes| == |g.scopes|
  }

  /** Where both branches of an if meet. */
  function EndIf(g: Gen, mergeBB: nat): (r: Gen)
    requires g.Valid() && mergeBB < |g.blocks| && |g.scopes| > 1
    ensures r.Valid() && |r.blocks| == |g.blocks| && |r.scopes| == |g.scopes| - 1
  {
    g.Insert(mergeBB).SetInsertPoint(mergeBB).RemoveTopScope()
  }

  /** An else block only becomes part of the function if there is an else. */
  function LowerElse(elseBlock: Stmt, g: Gen, elseBB: nat, funcs: Functions, returnType: Ty): (r: Option<Gen>)
    requires g.Valid() && elseBB < |g.blocks|
    ensures Grown(g, r)
    decreases elseBlock, 3
  {
    if elseBlock == EmptyStmt then Some(g)
    else
      match LowerStmt(elseBlock, g.Insert(elseBB).SetInsertPoint(elseBB), funcs, returnType)
      case None => None
      case Some(g1) => Some(BranchTo(g1, elseBB + 1))
  }

  /** Both branches of an if, from the start of the first one. */
  function LowerBranches(s: Stmt, g: Gen, elseBB: nat, funcs: Functions, returnType: Ty): (r: Option<Gen>)
    requires g.Valid() && s.IfStmt? && elseBB + 1 < |g.blocks| && |g.scopes| > 1
    ensures r.Some? ==> r.value.Valid() && |r.value.blocks| >= |g.blocks| && |r.value.scopes| == |g.scopes| - 1
    decreases s, 0
  {
    match LowerStmt(s.ifBlock, g, funcs, returnType)
    case None => None
    case Some(g1) =>
      match LowerElse(s.elseBlock, BranchTo(g1, elseBB + 1), elseBB, funcs, returnType)
      case None => None
      case Some(g2) => Some(EndIf(g2, elseBB + 1))
  }

  function LowerIf(s: Stmt, g: Gen, funcs: Functions, returnType: Ty): (r: Option<Gen>)
    requires g.Valid() && s.IfStmt?
    ensures Grown(g, r)
    decreases s, 1
  {
    var g0 := g.AddScope();
    match LowerCondition(s.condition, g0, funcs)
    case None => None
    case Some(cond) =>
      LowerBranches(s, BeginIf(g0.Emit(cond), cond.tv.value, s.elseBlock != EmptyStmt), |g.blocks| + 1, funcs, returnType)
  }

  function LowerWhile(s: Stmt, g: Gen, funcs: Functions, returnType: Ty): (r: Option<Gen>)
    requires g.Valid() && s.WhileStmt?
    ensures Grown(g, r)
    decreases s, 0
  {
    var condBB := |g.blocks|;
    var g0 := BranchToNew(g.AddScope());
    match LowerCondition(s.condition, g0, funcs)
    case None => None
    case Some(cond) =>
      match LowerStmt(s.block, GoToNew(g0.Emit(cond)), funcs, returnType)
      case None => None
      case Some(g1) => Some(EndWhile(g1, cond.tv.value, condBB, condBB + 1))
  }

  function LowerFor(s: Stmt, g: Gen, funcs: Functions, returnType: Ty): (r: Option<Gen>)
    requires g.Valid() && s.ForStmt?
    ensures Grown(g, r)
    decreases s, 0
  {
    var initBB := |g.blocks|;
    match LowerInit(s.init, BranchToNew(g.AddScope()), funcs)
    case None => None
    case Some(g1) =>
      var g2 := GoToNew(g1);
      match LowerCondition(s.end, g2, funcs)
      case None => None
      case Some(cond) =>
        match LowerStmt(s.block, GoToNew(g2.Emit(cond)), funcs, returnType)
        case None => None
        case Some(g3) =>
          match LowerStep(s.step, GoToNew(g3), funcs)
          case None => None
          case Some(g4) => Some(EndFor(g4, cond.tv.value, initBB, g3.cur, |g3.blocks|))
  }

  function LowerReturn(r: Option<Expr>, g: Gen, funcs: Functions, returnType: Ty): (r': Option<Gen>)
    requires g.Valid()
    ensures Grown(g, r')
  {
    match r
    case None => Some(g.Append([RetVoid]))
    case Some(e) =>
      match LowerExpr(e, g.scopes, funcs, g.next)
      case None => None
      case Some(i) => if i.tv.ty != returnType then None else Some(g.Emit(i).Append([Ret(i.tv.value)]))
  }

  function LowerStmt(s: Stmt, g: Gen, funcs: Functions, returnType: Ty): (r: Option<Gen>)
    requires g.Valid()
    ensures Grown(g, r)
    decreases s, 2
  {
    match s
    case EmptyStmt => Some(g)
    case ExprStmt(e) => LowerStep(Some(e), g, funcs)
    case DefStmt(def) => LowerDef(def, g, funcs)
    case BlockStmt(nodes) =>
      (match LowerAll(nodes, g.AddScope(), funcs, returnType)
       case None => None
       case Some(g1) => Some(g1.RemoveTopScope()))
    case IfStmt(_, _, _) => LowerIf(s, g, funcs, returnType)
    case WhileStmt(_, _) => LowerWhile(s, g, funcs, returnType)
    case ForStmt(_, _, _, _) => LowerFor(s, g, funcs, returnType)
    case ReturnStmt(r) => LowerReturn(r, g, funcs, returnType)
  }

  function LowerAll(ss: seq<Stmt>, g: Gen, funcs: Functions, returnType: Ty): (r: Option<Gen>)
    requires g.Valid()
    ensures Grown(g, r)
    decreases ss
  {
    if ss == [] then Some(g) else
    match LowerStmt(ss[0], g, funcs, returnType)
    case None => None
    case Some(g1) => LowerAll(ss[1..], g1, funcs, returnType)
  }

  /** Parameters get a variable each; the i-th argument arrives in register i. */
  function LowerParams(params: seq<Param>, i: nat, g: Gen): (r: Option<Gen>)
    requires g.Valid()
    ensures r.Some? ==> r.value.Valid()
    decreases params
  {
    if params == [] then Some(g)
    else if params[0].ty == VoidT then None
    else
      LowerParams(params[1..], i + 1,
        g.EntryAlloca(params[0].slot).Declare(params[0].slot, Symbol(params[0].ty, false))
         .Append([StoreTo(Temp(i), params[0].slot)]))
  }

  function Start(globals: Scope, arity: nat): Gen {
    Gen([[]], [0], [], 0, arity, [globals, map[]])
  }

  predicate EndsInReturn(body: seq<Stmt>) {
    body != [] && body[|body| - 1].ReturnStmt?
  }

  function LowerFunction(f: FunctionDef, globals: Scope, funcs: Functions): (r: Option<Gen>)
    ensures r.Some? ==> r.value.Valid()
  {
    match LowerParams(f.params, 0, Start(globals, |f.params|))
    case None => None
    case Some(g) =>
      match LowerStmt(BlockStmt(f.body), g, funcs, f.returnType)
      case None => None
      case Some(g1) =>
        if f.returnType == VoidT && !EndsInReturn(f.body) then Some(g1.Append([RetVoid])) else Some(g1)
  }

  function AllocaCode(slots: seq<Slot>): (code: Code)
    ensures |code| == |slots|
  {
    seq(|slots|, i requires 0 <= i < |slots| => Alloca(slots[i]))
  }

  /** The finished blocks, with the allocas back in the entry block. */
  function Assemble(g: Gen): seq<Code>
    requires g.blocks != []
  {
    g.blocks[0 := AllocaCode(g.allocas) + g.blocks[0]]
  }
}
