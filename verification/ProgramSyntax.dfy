/** Syntax of function bodies, after names have been resolved to variable slots, and the
    values they compute with. Shared by the meaning of the source and by the lowering. */
module ProgramSyntax {
  import opened Options

  /** Integer types i8, i16, i32 and i64. All are signed. */
  datatype Width = W8 | W16 | W32 | W64

  function Modulus(w: Width): (m: int)
    ensures m % 2 == 0 && m > 0
  {
    match w
    case W8 => 0x100
    case W16 => 0x1_0000
    case W32 => 0x1_0000_0000
    case W64 => 0x1_0000_0000_0000_0000
  }

  predicate InRange(w: Width, i: int) {
    -(Modulus(w) / 2) <= i < Modulus(w) / 2
  }

  datatype Ty = VoidT | BoolT | IntT(width: Width)

  datatype Value = VoidV | BoolV(b: bool) | IntV(width: Width, i: int)

  function ZeroOf(t: Ty): Value {
    match t
    case VoidT => VoidV
    case BoolT => BoolV(false)
    case IntT(w) => IntV(w, 0)
  }

  datatype BinaryOp =
    | Add | Sub | Mul | Div | Mod | Rem
    | Eq | NotEq | Less | Greater | LessEq | GreatEq
    | And | Or

  datatype UnaryOp = Plus | Minus | Not

  /** `=` or a compound assignment such as `+=`. */
  datatype AssignOp = Simple | Compound(op: BinaryOp)

  type Slot = nat

  datatype Expr =
    | Literal(value: Value)
    | VariableRef(slot: Slot)
    | Unary(uop: UnaryOp, operand: Expr)
    | Binary(bop: BinaryOp, lhs: Expr, rhs: Expr)
    | Assignment(aop: AssignOp, target: Expr, source: Expr)
    | Cast(inner: Expr, to: Ty)
    | Call(callee: string, args: seq<Expr>)

  /** `let [mut] x [: type] [= init]`; an omitted type is inferred from the initialiser. */
  datatype VariableDef =
    VariableDef(slot: Slot, declared: Option<Ty>, isMutable: bool, init: Option<Expr>)

  datatype Stmt =
    | EmptyStmt
    | ExprStmt(e: Expr)
    | DefStmt(def: VariableDef)
    | BlockStmt(nodes: seq<Stmt>)
    | IfStmt(condition: Expr, ifBlock: Stmt, elseBlock: Stmt)
    | WhileStmt(condition: Expr, block: Stmt)
    | ForStmt(init: Option<VariableDef>, end: Expr, step: Option<Expr>, block: Stmt)
    | ReturnStmt(returnValue: Option<Expr>)

  datatype Param = Param(slot: Slot, ty: Ty)

  /** A function definition; its body is a block. */
  datatype FunctionDef = FunctionDef(params: seq<Param>, returnType: Ty, body: seq<Stmt>)

  /** A variable the symbol table knows. */
  datatype Symbol = Symbol(ty: Ty, isMutable: bool)

  type Scope = map<Slot, Symbol>

  datatype Signature = Signature(params: seq<Ty>, result: Ty)

  type Functions = map<string, Signature>

  type Store = map<Slot, Value>

  /** One function call as the rest of the world sees it. */
  datatype Event = Event(callee: string, args: seq<Value>, result: Value)

  type Trace = seq<Event>

  datatype State = State(store: Store, trace: Trace)

  /** What calls do: given the trace so far, the variables and the arguments, a call
      yields a result and the variables it leaves behind. */
  type World = (Trace, Store, string, seq<Value>) -> (Value, Store)

  function CallWorld(world: World, st: State, f: string, args: seq<Value>): (Value, State) {
    var (v, store) := world(st.trace, st.store, f, args);
    (v, State(store, st.trace + [Event(f, args, v)]))
  }
}
