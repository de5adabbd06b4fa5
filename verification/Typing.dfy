/** Which programs are well typed, over declared types, mutability and signatures. */
module Typing {
  import opened Options
  import opened ProgramSyntax

  function LiteralType(v: Value): Ty {
    match v
    case VoidV => VoidT
    case BoolV(_) => BoolT
    case IntV(w, _) => IntT(w)
  }

  /** The type of `a op b` for two operands of type t. */
  function BinaryType(op: BinaryOp, t: Ty): Option<Ty> {
    if op in {Add, Sub, Mul, Div, Mod, Rem} && t.IntT? then Some(t)
    else if op in {Less, Greater, LessEq, GreatEq} && t.IntT? then Some(BoolT)
    else if op in {Eq, NotEq} && t != VoidT then Some(BoolT)
    else if op in {And, Or} && t == BoolT then Some(BoolT)
    else None
  }

  function UnaryType(op: UnaryOp, t: Ty): Option<Ty> {
    if (op == Minus && t.IntT?) || (op == Not && t != VoidT) then Some(t) else None
  }

  /** A mutable variable, or an assignment to one. */
  predicate Assignable(e: Expr, vars: Scope) {
    match e
    case VariableRef(s) => s in vars && vars[s].isMutable
    case Assignment(_, target, _) => Assignable(target, vars)
    case _ => false
  }

  /** May a value of type u be assigned to a variable of type t? A bool takes anything. */
  predicate MayAssign(op: AssignOp, t: Ty, u: Ty) {
    match op
    case Simple => t == BoolT || (t.IntT? && u == t)
    case Compound(bop) => t.IntT? && u == t && bop in {Add, Sub, Mul, Div, Mod}
  }

  /** The type of an expression, if it has one. */
  function TypeOfExpr(e: Expr, vars: Scope, funcs: Functions): Option<Ty> {
    match e
    case Literal(v) => Some(LiteralType(v))
    case VariableRef(s) => if s in vars then Some(vars[s].ty) else None
    case Unary(op, operand) =>
      (match TypeOfExpr(operand, vars, funcs)
       case Some(t) => UnaryType(op, t)
       case None => None)
    case Binary(op, lhs, rhs) =>
      (match (TypeOfExpr(lhs, vars, funcs), TypeOfExpr(rhs, vars, funcs))
       case (Some(t), Some(u)) => if t == u then BinaryType(op, t) else None
       case _ => None)
    case Assignment(op, target, source) =>
      (match (TypeOfExpr(target, vars, funcs), TypeOfExpr(source, vars, funcs))
       case (Some(t), Some(u)) => if Assignable(target, vars) && MayAssign(op, t, u) then Some(t) else None
       case _ => None)
    case Cast(inner, to) =>
      (match TypeOfExpr(inner, vars, funcs)
       case Some(t) => if t.IntT? && to.IntT? then Some(to) else None
       case None => None)
    case Call(f, args) =>
      if f in funcs && TypesOf(args, vars, funcs) == Some(funcs[f].params) then Some(funcs[f].result) else None
  }

  function TypesOf(args: seq<Expr>, vars: Scope, funcs: Functions): Option<seq<Ty>> {
    if args == [] then Some([]) else
    match (TypeOfExpr(args[0], vars, funcs), TypesOf(args[1..], vars, funcs))
    case (Some(t), Some(ts)) => Some([t] + ts)
    case _ => None
  }

  predicate HasType(e: Expr, t: Ty, vars: Scope, funcs: Functions) {
    TypeOfExpr(e, vars, funcs) == Some(t)
  }

  /** The variables behind a definition. The name must be new, a type or a value given, and the
      value of the type given; nothing is of type void. */
  function Defined(def: VariableDef, vars: Scope, funcs: Functions): Option<Scope> {
    var given := match def.init
      case Some(e) => TypeOfExpr(e, vars, funcs)
      case None => def.declared;
    match given
    case None => None
    case Some(t) =>
      if def.slot in vars || t == VoidT || def.declared.GetOr(t) != t then None
      else Some(vars[def.slot := Symbol(t, def.isMutable)])
  }

  /** The variables behind a statement, if it is well typed. What is defined inside a block, an
      if or a loop ends with it; an else block, and the step of a loop, come behind the other
      block in the same scope. */
  function Checked(s: Stmt, vars: Scope, funcs: Functions, result: Ty): Option<Scope>
    decreases s, 1
  {
    match s
    case EmptyStmt => Some(vars)
    case ExprStmt(e) => if TypeOfExpr(e, vars, funcs).Some? then Some(vars) else None
    case DefStmt(def) => Defined(def, vars, funcs)
    case BlockStmt(nodes) => if CheckedAll(nodes, vars, funcs, result).Some? then Some(vars) else None
    case IfStmt(c, ifBlock, elseBlock) =>
      if !HasType(c, BoolT, vars, funcs) then None else
      (match Checked(ifBlock, vars, funcs, result)
       case None => None
       case Some(vars1) => if Checked(elseBlock, vars1, funcs, result).Some? then Some(vars) else None)
    case WhileStmt(c, body) =>
      if HasType(c, BoolT, vars, funcs) && Checked(body, vars, funcs, result).Some? then Some(vars) else None
    case ForStmt(init, c, step, body) =>
      (match if init.Some? then Defined(init.value, vars, funcs) else Some(vars)
       case None => None
       case Some(vars1) =>
         if !HasType(c, BoolT, vars1, funcs) then None else
         match Checked(body, vars1, funcs, result)
         case None => None
         case Some(vars2) => if step.Some? ==> TypeOfExpr(step.value, vars2, funcs).Some? then Some(vars) else None)
    case ReturnStmt(value) => if value.Some? ==> HasType(value.value, result, vars, funcs) then Some(vars) else None
  }

  function CheckedAll(ss: seq<Stmt>, vars: Scope, funcs: Functions, result: Ty): Option<Scope>
    decreases ss, 0
  {
    if ss == [] then Some(vars) else
    match Checked(ss[0], vars, funcs, result)
    case None => None
    case Some(vars1) => CheckedAll(ss[1..], vars1, funcs, result)
  }

  /** The parameters as variables, none of them mutable; of two with one name the first counts. */
  function ParamScope(params: seq<Param>): Scope {
    if params == [] then map[]
    else ParamScope(params[1..])[params[0].slot := Symbol(params[0].ty, false)]
  }

  /** Parameters hide globals, and no parameter is of type void. */
  predicate WellTyped(f: FunctionDef, globals: Scope, funcs: Functions) {
    (forall i :: 0 <= i < |f.params| ==> f.params[i].ty != VoidT)
    && Checked(BlockStmt(f.body), globals + ParamScope(f.params), funcs, f.returnType).Some?
  }
}
