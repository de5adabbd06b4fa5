/** Meaning of function bodies: a big-step evaluator over variable slots. It fixes the
    points where the language is not what one might guess: `and` and `or` evaluate both
    sides, an assignment reads its left side first and yields that earlier value. */
module SourceMeaning {
  import opened Options
  import opened ProgramSyntax

  datatype EvalResult =
    | Evaluated(v: Value, st: State)
    | Undefined

  datatype ArgsResult =
    | EvaluatedArgs(vs: seq<Value>, st: State)
    | UndefinedArgs

  /** The exact integer, if the type can hold it; signed overflow is undefined. */
  function Exact(w: Width, i: int): Option<Value> {
    if InRange(w, i) then Some(IntV(w, i)) else None
  }

  /** Two's complement value congruent to i. */
  function Wrapped(w: Width, i: int): Value {
    var m := Modulus(w);
    IntV(w, (i + m / 2) % m - m / 2)
  }

  function Magnitude(i: int): nat {
    if i < 0 then -i else i
  }

  /** Quotient rounded towards zero. */
  function Quotient(a: int, b: int): int
    requires b != 0
  {
    var q := Magnitude(a) / Magnitude(b);
    if (a < 0) == (b < 0) then q else -q
  }

  /** What is left of a after Quotient: it has the sign of a. */
  function Remainder(a: int, b: int): int
    requires b != 0
  {
    a - b * Quotient(a, b)
  }

  function Arithmetic(op: BinaryOp, w: Width, a: int, b: int): Option<Value> {
    match op
    case Add => Exact(w, a + b)
    case Sub => Exact(w, a - b)
    case Mul => Exact(w, a * b)
    case Div => if b == 0 then None else Exact(w, Quotient(a, b))
    // `%` and `rem` are one operation, and overflow with the division that defines it
    case Mod => if b == 0 || !InRange(w, Quotient(a, b)) then None else Exact(w, Remainder(a, b))
    case Rem => if b == 0 || !InRange(w, Quotient(a, b)) then None else Exact(w, Remainder(a, b))
    case Eq => Some(BoolV(a == b))
    case NotEq => Some(BoolV(a != b))
    case Less => Some(BoolV(a < b))
    case Greater => Some(BoolV(a > b))
    case LessEq => Some(BoolV(a <= b))
    case GreatEq => Some(BoolV(a >= b))
    case And => None
    case Or => None
  }

  function Logic(op: BinaryOp, a: bool, b: bool): Option<Value> {
    match op
    case Eq => Some(BoolV(a == b))
    case NotEq => Some(BoolV(a != b))
    case And => Some(BoolV(a && b))
    case Or => Some(BoolV(a || b))
    case _ => None
  }

  function BinaryMeaning(op: BinaryOp, a: Value, b: Value): Option<Value> {
    match (a, b)
    case (IntV(w, i), IntV(w', j)) => if w == w' then Arithmetic(op, w, i, j) else None
    case (BoolV(p), BoolV(q)) => Logic(op, p, q)
    case _ => None
  }

  function UnaryMeaning(op: UnaryOp, a: Value): Option<Value> {
    match (op, a)
    case (Minus, IntV(w, i)) => Some(Wrapped(w, -i))
    case (Not, IntV(w, i)) => Some(IntV(w, -1 - i))
    case (Not, BoolV(b)) => Some(BoolV(!b))
    case _ => None
  }

  function CastMeaning(a: Value, to: Ty): Option<Value> {
    match (a, to)
    case (IntV(_, i), IntT(w)) => Some(Wrapped(w, i))
    case _ => None
  }

  /** The variable an assignment writes. An assignment may itself be assigned to. */
  function Target(e: Expr): Option<Slot> {
    match e
    case VariableRef(s) => Some(s)
    case Assignment(_, target, _) => Target(target)
    case _ => None
  }

  function AssignedValue(op: AssignOp, before: Value, rhs: Value): Option<Value> {
    match op
    case Simple => Some(rhs)
    case Compound(bop) => BinaryMeaning(bop, before, rhs)
  }

  function Done(v: Option<Value>, st: State): EvalResult {
    match v
    case Some(x) => Evaluated(x, st)
    case None => Undefined
  }

  function Eval(e: Expr, st: State, world: World): EvalResult
    decreases e
  {
    match e
    case Literal(v) => Evaluated(v, st)
    case VariableRef(s) => if s in st.store then Evaluated(st.store[s], st) else Undefined
    case Unary(op, operand) =>
      (match Eval(operand, st, world)
       case Evaluated(v, st1) => Done(UnaryMeaning(op, v), st1)
       case Undefined => Undefined)
    case Binary(op, lhs, rhs) =>
      (match Eval(lhs, st, world)
       case Undefined => Undefined
       case Evaluated(a, st1) =>
         match Eval(rhs, st1, world)
         case Undefined => Undefined
         case Evaluated(b, st2) => Done(BinaryMeaning(op, a, b), st2))
    case Assignment(op, target, source) =>
      (match Eval(target, st, world)
       case Undefined => Undefined
       case Evaluated(before, st1) =>
         match Eval(source, st1, world)
         case Undefined => Undefined
         case Evaluated(rhs, st2) =>
           match (Target(target), AssignedValue(op, before, rhs))
           case (Some(s), Some(v)) => Evaluated(before, st2.(store := st2.store[s := v]))
           case _ => Undefined)
    case Cast(inner, to) =>
      (match Eval(inner, st, world)
       case Evaluated(v, st1) => Done(CastMeaning(v, to), st1)
       case Undefined => Undefined)
    case Call(f, args) =>
      match EvalArgs(args, st, world)
      case UndefinedArgs => Undefined
      case EvaluatedArgs(vs, st1) =>
        var (v, st2) := CallWorld(world, st1, f, vs);
        Evaluated(v, st2)
  }

  function EvalArgs(args: seq<Expr>, st: State, world: World): ArgsResult
    decreases args
  {
    if args == [] then EvaluatedArgs([], st) else
    match Eval(args[0], st, world)
    case Undefined => UndefinedArgs
    case Evaluated(v, st1) =>
      match EvalArgs(args[1..], st1, world)
      case UndefinedArgs => UndefinedArgs
      case EvaluatedArgs(vs, st2) => EvaluatedArgs([v] + vs, st2)
  }

  /** How a statement ends. TimeOut: not within the loop iterations allowed. */
  datatype Outcome =
    | Normal(st: State)
    | Returned(v: Value, st: State)
    | Wrong
    | TimeOut

  function Define(def: VariableDef, st: State, world: World): Outcome {
    match def.init
    case None =>
      (match def.declared
       case Some(t) => Normal(st.(store := st.store[def.slot := ZeroOf(t)]))
       case None => Wrong)
    case Some(e) =>
      match Eval(e, st, world)
      case Undefined => Wrong
      case Evaluated(v, st1) => Normal(st1.(store := st1.store[def.slot := v]))
  }

  function ExecInit(init: Option<VariableDef>, st: State, world: World): Outcome {
    match init
    case None => Normal(st)
    case Some(def) => Define(def, st, world)
  }

  function ExecStep(step: Option<Expr>, st: State, world: World): Outcome {
    match step
    case None => Normal(st)
    case Some(e) =>
      match Eval(e, st, world)
      case Undefined => Wrong
      case Evaluated(_, st1) => Normal(st1)
  }

  function ExecReturn(r: Option<Expr>, st: State, world: World): Outcome {
    match r
    case None => Returned(VoidV, st)
    case Some(e) =>
      match Eval(e, st, world)
      case Undefined => Wrong
      case Evaluated(v, st1) => Returned(v, st1)
  }

  function Exec(s: Stmt, st: State, world: World, fuel: nat): Outcome
    decreases fuel, s
  {
    match s
    case EmptyStmt => Normal(st)
    case ExprStmt(e) =>
      (match Eval(e, st, world)
       case Undefined => Wrong
       case Evaluated(_, st1) => Normal(st1))
    case DefStmt(def) => Define(def, st, world)
    case BlockStmt(nodes) => ExecAll(nodes, st, world, fuel)
    case IfStmt(c, a, b) =>
      (match Eval(c, st, world)
       case Evaluated(BoolV(true), st1) => Exec(a, st1, world, fuel)
       case Evaluated(BoolV(false), st1) => Exec(b, st1, world, fuel)
       case _ => Wrong)
    case WhileStmt(c, body) => Loop(c, None, body, st, world, fuel)
    case ForStmt(init, c, step, body) =>
      (match ExecInit(init, st, world)
       case Normal(st1) => Loop(c, step, body, st1, world, fuel)
       case o => o)
    case ReturnStmt(r) => ExecReturn(r, st, world)
  }

  function ExecAll(ss: seq<Stmt>, st: State, world: World, fuel: nat): Outcome
    decreases fuel, ss
  {
    if ss == [] then Normal(st) else
    match Exec(ss[0], st, world, fuel)
    case Normal(st1) => ExecAll(ss[1..], st1, world, fuel)
    case o => o
  }

  /** Test, body, step, and again: at most `fuel` iterations, nested ones included. */
  function Loop(c: Expr, step: Option<Expr>, body: Stmt, st: State, world: World, fuel: nat): Outcome
    decreases fuel, body, 0
  {
    if fuel == 0 then TimeOut else
    match Eval(c, st, world)
    case Evaluated(BoolV(false), st1) => Normal(st1)
    case Evaluated(BoolV(true), st1) =>
      (match Exec(body, st1, world, fuel - 1)
       case Normal(st2) =>
         (match ExecStep(step, st2, world)
          case Normal(st3) => Loop(c, step, body, st3, world, fuel - 1)
          case o => o)
       case o => o)
    case _ => Wrong
  }

  function BindParams(params: seq<Param>, args: seq<Value>, store: Store): Store
    requires |params| == |args|
  {
    if params == [] then store
    else BindParams(params[1..], args[1..], store[params[0].slot := args[0]])
  }

  /** A whole call: bind the parameters, run the body. Falling off the end returns from a
      void function and is undefined in any other. */
  function CallFunction(f: FunctionDef, args: seq<Value>, st: State, world: World, fuel: nat): Outcome
    requires |f.params| == |args|
  {
    match ExecAll(f.body, st.(store := BindParams(f.params, args, st.store)), world, fuel)
    case Normal(st1) => if f.returnType == VoidT then Returned(VoidV, st1) else Wrong
    case o => o
  }
}
