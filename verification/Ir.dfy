/** The part of LLVM the compiler emits: basic blocks of instructions, and how they run. */
module Ir {
  import opened Options
  import opened ProgramSyntax

  /** An LLVM value. `Loaded` is the result of a load, which remembers what it read from. */
  datatype Operand =
    | Constant(v: Value)
    | Temp(reg: nat)
    | Loaded(reg: nat, slot: Slot)

  datatype Opcode =
    | NswAdd | NswSub | NswMul | SDiv | SRem
    | ICmpEq | ICmpNe | ICmpSlt | ICmpSgt | ICmpSle | ICmpSge
    | AndI | OrI

  datatype Instr =
    | Alloca(slot: Slot)
    | Load(dst: nat, slot: Slot)
    | StoreTo(src: Operand, slot: Slot)
    | BinaryI(dst: nat, op: Opcode, a: Operand, b: Operand)
    | NegI(dst: nat, a: Operand)
    | XorOnes(dst: nat, a: Operand)
    | IntCast(dst: nat, a: Operand, w: Width)
    | CallI(dst: nat, callee: string, args: seq<Operand>)
    | Br(target: nat)
    | CondBr(cond: Operand, ifTrue: nat, ifFalse: nat)
    | Ret(result: Operand)
    | RetVoid
    | Unreachable
  {
    predicate IsTerminator() {
      Br? || CondBr? || Ret? || RetVoid? || Unreachable?
    }
  }

  type Code = seq<Instr>

  type Regs = map<nat, Value>

  /** A run stands at some code, or has returned, or has done something undefined. */
  datatype Config =
    | Running(code: Code, regs: Regs, st: State)
    | Halted(result: Value, st: State)
    | Stuck

  function OperandValue(o: Operand, regs: Regs): Option<Value> {
    match o
    case Constant(v) => Some(v)
    case Temp(r) => if r in regs then Some(regs[r]) else None
    case Loaded(r, _) => if r in regs then Some(regs[r]) else None
  }

  function OperandValues(os: seq<Operand>, regs: Regs): Option<seq<Value>> {
    if os == [] then Some([]) else
    match (OperandValue(os[0], regs), OperandValues(os[1..], regs))
    case (Some(v), Some(vs)) => Some([v] + vs)
    case _ => None
  }

  function NoSignedWrap(w: Width, i: int): Option<Value> {
    if -(Modulus(w) / 2) <= i <= Modulus(w) / 2 - 1 then Some(IntV(w, i)) else None
  }

  /** Keeps the low bits of i and reads them as a signed number. */
  function LowBits(w: Width, i: int): Value {
    var u := i % Modulus(w);
    IntV(w, if u < Modulus(w) / 2 then u else u - Modulus(w))
  }

  /** sdiv in terms of Dafny's division, whose remainder is never negative. */
  function SDivide(a: int, b: int): int
    requires b != 0
  {
    if a >= 0 || a % b == 0 then a / b
    else if b > 0 then a / b + 1
    else a / b - 1
  }

  function IntOp(op: Opcode, w: Width, a: int, b: int): Option<Value> {
    match op
    case NswAdd => NoSignedWrap(w, a + b)
    case NswSub => NoSignedWrap(w, a - b)
    case NswMul => NoSignedWrap(w, a * b)
    case SDiv => if b == 0 then None else NoSignedWrap(w, SDivide(a, b))
    case SRem =>
      if b == 0 || NoSignedWrap(w, SDivide(a, b)) == None then None
      else NoSignedWrap(w, a - SDivide(a, b) * b)
    case ICmpEq => Some(BoolV(a == b))
    case ICmpNe => Some(BoolV(a != b))
    case ICmpSlt => Some(BoolV(a < b))
    case ICmpSgt => Some(BoolV(a > b))
    case ICmpSle => Some(BoolV(a <= b))
    case ICmpSge => Some(BoolV(a >= b))
    case AndI => None
    case OrI => None
  }

  function BitOp(op: Opcode, a: bool, b: bool): Option<Value> {
    match op
    case ICmpEq => Some(BoolV(a == b))
    case ICmpNe => Some(BoolV(a != b))
    case AndI => Some(BoolV(a && b))
    case OrI => Some(BoolV(a || b))
    case _ => None
  }

  function Operate(op: Opcode, a: Value, b: Value): Option<Value> {
    match (a, b)
    case (IntV(w, i), IntV(w', j)) => if w == w' then IntOp(op, w, i, j) else None
    case (BoolV(p), BoolV(q)) => BitOp(op, p, q)
    case _ => None
  }

  /** `0 - a`, which wraps around. */
  function Negate(a: Value): Option<Value> {
    match a
    case IntV(w, i) => Some(LowBits(w, 0 - i))
    case _ => None
  }

  /** `a xor -1`: the complement of an integer, the negation of an i1. */
  function Complement(a: Value): Option<Value> {
    match a
    case IntV(w, i) => Some(IntV(w, -1 - i))
    case BoolV(b) => Some(BoolV(!b))
    case VoidV => None
  }

  function SignCast(a: Value, w: Width): Option<Value> {
    match a
    case IntV(_, i) => Some(LowBits(w, i))
    case _ => None
  }

  /** Put a value in a register, or get stuck for want of one. */
  function Assign(dst: nat, v: Option<Value>, rest: Code, regs: Regs, st: State): Config {
    match v
    case Some(x) => Running(rest, regs[dst := x], st)
    case None => Stuck
  }

  function Unary(f: Value -> Option<Value>, o: Option<Value>): Option<Value> {
    match o
    case Some(x) => f(x)
    case None => None
  }

  function Jump(blocks: seq<Code>, b: nat, regs: Regs, st: State): Config {
    if b < |blocks| then Running(blocks[b], regs, st) else Stuck
  }

  function Step(blocks: seq<Code>, c: Config, world: World): Config {
    if !c.Running? then c
    else if c.code == [] then Stuck  // control runs off the end of a block
    else
      var (rest, regs, st) := (c.code[1..], c.regs, c.st);
      match c.code[0]
      case Alloca(s) => Running(rest, regs, st)  // memory for s; it has no value before a store
      case Load(d, s) => Assign(d, if s in st.store then Some(st.store[s]) else None, rest, regs, st)
      case StoreTo(o, s) =>
        (match OperandValue(o, regs)
         case Some(v) => Running(rest, regs, st.(store := st.store[s := v]))
         case None => Stuck)
      case BinaryI(d, op, a, b) =>
        (match (OperandValue(a, regs), OperandValue(b, regs))
         case (Some(x), Some(y)) => Assign(d, Operate(op, x, y), rest, regs, st)
         case _ => Stuck)
      case NegI(d, a) => Assign(d, Unary(Negate, OperandValue(a, regs)), rest, regs, st)
      case XorOnes(d, a) => Assign(d, Unary(Complement, OperandValue(a, regs)), rest, regs, st)
      case IntCast(d, a, w) => Assign(d, Unary(x => SignCast(x, w), OperandValue(a, regs)), rest, regs, st)
      case CallI(d, f, os) =>
        (match OperandValues(os, regs)
         case None => Stuck
         case Some(vs) =>
           var (v, st1) := CallWorld(world, st, f, vs);
           Running(rest, regs[d := v], st1))
      case Br(b) => Jump(blocks, b, regs, st)
      case CondBr(o, t, f) =>
        (match OperandValue(o, regs)
         case Some(BoolV(true)) => Jump(blocks, t, regs, st)
         case Some(BoolV(false)) => Jump(blocks, f, regs, st)
         case _ => Stuck)
      case Ret(o) =>
        (match OperandValue(o, regs)
         case Some(v) => Halted(v, st)
         case None => Stuck)
      case RetVoid => Halted(VoidV, st)
      case Unreachable => Stuck
  }

  /** The configuration n steps on. A run that has ended stays where it is. */
  function Run(blocks: seq<Code>, c: Config, world: World, n: nat): Config
    decreases n
  {
    if n == 0 then c else Run(blocks, Step(blocks, c, world), world, n - 1)
  }

  lemma {:induction false} RunAdds(blocks: seq<Code>, c: Config, world: World, m: nat, n: nat)
    ensures Run(blocks, c, world, m + n) == Run(blocks, Run(blocks, c, world, m), world, n)
    decreases m
  {
    if m > 0 {
      RunAdds(blocks, Step(blocks, c, world), world, m - 1, n);
    }
  }

  lemma {:induction false} EndedStays(blocks: seq<Code>, c: Config, world: World, n: nat)
    requires !c.Running?
    ensures Run(blocks, c, world, n) == c
  {
    if n > 0 {
      EndedStays(blocks, c, world, n - 1);
    }
  }

  /** Whatever a run ends in, it ends in the same way however long one watches. */
  lemma EndIsUnique(blocks: seq<Code>, c: Config, world: World, m: nat, n: nat)
    requires m <= n
    requires !Run(blocks, c, world, m).Running?
    ensures Run(blocks, c, world, n) == Run(blocks, c, world, m)
  {
    RunAdds(blocks, c, world, m, n - m);
    EndedStays(blocks, Run(blocks, c, world, m), world, n - m);
  }
}
