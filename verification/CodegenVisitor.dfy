/** The visitor that generates code, with its builder and symbol table. Every visit moves
    the insert point and appends instructions; what it leaves behind is what Lowering says. */
module CodegenVisitors {
  import opened Options
  import opened ProgramSyntax
  import opened Ir
  import opened Lowering

  class CodegenVisitor {
    // the function under construction
    var blocks: seq<Code>
    var layout: seq<nat>
    var allocas: seq<Slot>
    // the builder
    var insertBlock: nat
    var nextReg: nat
    // the symbol table, innermost scope last
    var symbols: seq<Scope>

    const funcs: Functions
    const returnType: Ty

    ghost function State(): Gen
      reads this
    {
      Gen(blocks, layout, allocas, insertBlock, nextReg, symbols)
    }

    ghost predicate Valid()
      reads this
    {
      State().Valid()
    }

    /** Ready to generate a function: an entry block, and a scope inside the global one. */
    constructor (globals: Scope, arity: nat, funcs: Functions, returnType: Ty)
      ensures Valid() && State() == Start(globals, arity)
      ensures this.funcs == funcs && this.returnType == returnType
    {
      blocks, layout, allocas := [[]], [0], [];
      insertBlock, nextReg := 0, arity;
      symbols := [globals, map[]];
      this.funcs, this.returnType := funcs, returnType;
    }

    // ---- builder ----

    method CreateBlock() returns (b: nat)
      modifies this`blocks
      ensures b == |old(blocks)| && State() == old(State()).Create()
    {
      b := |blocks|;
      blocks := blocks + [[]];
    }

    method InsertBlock(b: nat)
      modifies this`layout
      ensures State() == old(State()).Insert(b)
    {
      layout := layout + [b];
    }

    method CreateInsertedBlock() returns (b: nat)
      modifies this`blocks, this`layout
      ensures b == |old(blocks)| && State() == old(State()).CreateInserted()
    {
      b := CreateBlock();
      InsertBlock(b);
    }

    method Emit(i: Instr)
      requires insertBlock < |blocks|
      modifies this`blocks
      ensures State() == old(State()).AppendTo(insertBlock, [i])
    {
      blocks := blocks[insertBlock := blocks[insertBlock] + [i]];
    }

    /** The alloca stands at the front of the finished entry block; all other blocks, and the
        insert point, are as they were. */
    method CreateEntryBlockAlloca(s: Slot)
      requires blocks != []
      modifies this`allocas
      ensures State() == old(State()).EntryAlloca(s)
      ensures var was := old(Assemble(State())); Assemble(State()) == was[0 := [Alloca(s)] + was[0]]
    {
      allocas := [s] + allocas;
      assert [Alloca(s)] + (AllocaCode(old(allocas)) + blocks[0]) == AllocaCode(allocas) + blocks[0];
    }

    // ---- symbol table ----

    method FindSymbol(s: Slot) returns (r: Option<Symbol>)
      ensures r == Find(symbols, s)
    {
      var i := |symbols|;
      assert symbols[..i] == symbols;
      while i > 0
        invariant 0 <= i <= |symbols|
        invariant Find(symbols, s) == Find(symbols[..i], s)
      {
        assert symbols[..i][..i - 1] == symbols[..i - 1];
        if s in symbols[i - 1] {
          return Some(symbols[i - 1][s]);
        }
        i := i - 1;
      }
      r := None;
    }

    method Declare(s: Slot, sym: Symbol)
      requires symbols != []
      modifies this`symbols
      ensures State() == old(State()).Declare(s, sym)
    {
      var k := |symbols| - 1;
      if s !in symbols[k] {
        symbols := symbols[k := Extended(symbols[k], s, sym)];
      }
    }

    // ---- expressions ----

    /** What a visit of an expression may do: append the code em. */
    ghost predicate Emitted(before: Gen, em: Option<Emitted>, r: Option<TypedValue>)
      requires before.Valid()
      reads this
    {
      match em
      case None => r == None
      case Some(e) => r == Some(e.tv) && State() == before.Emit(e)
    }

    method VisitExpr(e: Expr) returns (r: Option<TypedValue>)
      requires Valid()
      modifies this`blocks, this`nextReg
      ensures Emitted(old(State()), LowerExpr(e, old(symbols), funcs, old(nextReg)), r)
      decreases e, 1
    {
      match e {
        case Literal(v) =>
          assert blocks[insertBlock] + [] == blocks[insertBlock];
          r := Some(TypedValue(TypeOf(v), Constant(v), RValue, true));
        case VariableRef(s) =>
          var sym := FindSymbol(s);
          if sym == None {
            return None;
          }
          var reg := nextReg;
          Emit(Load(reg, s));
          nextReg := reg + 1;
          r := Some(TypedValue(sym.value.ty, Loaded(reg, s), LValue, sym.value.isMutable));
        case Unary(_, _) => r := VisitUnary(e);
        case Binary(_, _, _) => r := VisitBinary(e);
        case Assignment(_, _, _) => r := VisitAssignment(e);
        case Cast(_, _) => r := VisitCast(e);
        case Call(_, _) => r := VisitCall(e);
      }
    }

    method VisitUnary(e: Expr) returns (r: Option<TypedValue>)
      requires Valid() && e.Unary?
      modifies this`blocks, this`nextReg
      ensures Emitted(old(State()), LowerExpr(e, old(symbols), funcs, old(nextReg)), r)
      decreases e, 0
    {
      var a := VisitExpr(e.operand);
      if a == None {
        return None;
      }
      var op := LowerUnary(e.uop, a.value, nextReg);
      if op == None {
        return None;
      }
      Emit(op.value.0);
      nextReg := nextReg + 1;
      r := Some(op.value.1);
      ghost var code := LowerExpr(e.operand, old(symbols), funcs, old(nextReg)).value.code;
      assert old(blocks)[insertBlock] + code + [op.value.0] == old(blocks)[insertBlock] + (code + [op.value.0]);
    }

    method VisitCast(e: Expr) returns (r: Option<TypedValue>)
      requires Valid() && e.Cast?
      modifies this`blocks, this`nextReg
      ensures Emitted(old(State()), LowerExpr(e, old(symbols), funcs, old(nextReg)), r)
      decreases e, 0
    {
      var a := VisitExpr(e.inner);
      if a == None || !a.value.ty.IntT? || !e.to.IntT? {
        return None;
      }
      var reg := nextReg;
      var i := IntCast(reg, a.value.value, e.to.width);
      Emit(i);
      nextReg := reg + 1;
      r := Some(TypedValue(e.to, Temp(reg), RValue, a.value.isMutable));
      ghost var code := LowerExpr(e.inner, old(symbols), funcs, old(nextReg)).value.code;
      assert old(blocks)[insertBlock] + code + [i] == old(blocks)[insertBlock] + (code + [i]);
    }

    method VisitBinary(e: Expr) returns (r: Option<TypedValue>)
      requires Valid() && e.Binary?
      modifies this`blocks, this`nextReg
      ensures Emitted(old(State()), LowerExpr(e, old(symbols), funcs, old(nextReg)), r)
      decreases e, 0
    {
      ghost var before := blocks[insertBlock];
      var a := VisitExpr(e.lhs);
      if a == None {
        return None;
      }
      ghost var codeA := LowerExpr(e.lhs, old(symbols), funcs, old(nextReg)).value.code;
      label L:
      var b := VisitExpr(e.rhs);
      if b == None {
        return None;
      }
      ghost var codeB := LowerExpr(e.rhs, old(symbols), funcs, old@L(nextReg)).value.code;
      var op := LowerBinary(e.bop, a.value, b.value, nextReg);
      if op == None {
        return None;
      }
      Emit(op.value.0);
      nextReg := nextReg + 1;
      r := Some(op.value.1);
      assert before + codeA + codeB + [op.value.0] == before + (codeA + codeB + [op.value.0]);
    }

    method VisitAssignment(e: Expr) returns (r: Option<TypedValue>)
      requires Valid() && e.Assignment?
      modifies this`blocks, this`nextReg
      ensures Emitted(old(State()), LowerExpr(e, old(symbols), funcs, old(nextReg)), r)
      decreases e, 0
    {
      ghost var before := blocks[insertBlock];
      var a := VisitExpr(e.target);
      if a == None {
        return None;
      }
      ghost var codeA := LowerExpr(e.target, old(symbols), funcs, old(nextReg)).value.code;
      label L:
      var b := VisitExpr(e.source);
      if b == None {
        return None;
      }
      ghost var codeB := LowerExpr(e.source, old(symbols), funcs, old@L(nextReg)).value.code;
      label M:
      var ok := AssignmentOperation(e.aop, a.value, b.value);
      if !ok {
        return None;
      }
      r := a;
      ghost var code := LowerAssign(e.aop, a.value, b.value, old@M(nextReg)).value.0;
      assert before + codeA + codeB + code == before + (codeA + codeB + code);
    }

    /** Stores b, or the compound result, to the variable a was loaded from. */
    method AssignmentOperation(op: AssignOp, a: TypedValue, b: TypedValue) returns (ok: bool)
      requires Valid()
      modifies this`blocks, this`nextReg
      ensures match LowerAssign(op, a, b, old(nextReg))
              case None => !ok
              case Some((code, next)) => ok && State() == old(State()).Append(code).(next := next)
    {
      ghost var before := blocks[insertBlock];
      if a.cat == RValue || !a.isMutable || !a.value.Loaded? || a.ty == VoidT {
        return false;
      }
      var rhs := b;
      if op.Compound? {
        if a.ty == BoolT || op.op !in {Add, Sub, Mul, Div, Mod} {
          return false;
        }
        var r := LowerBinary(op.op, a, b, nextReg);
        if r == None {
          return false;
        }
        Emit(r.value.0);
        nextReg := nextReg + 1;
        rhs := r.value.1;
      }
      if a.ty.IntT? && rhs.ty != a.ty {
        return false;
      }
      Emit(StoreTo(rhs.value, a.value.slot));
      ok := true;
      if op.Compound? {
        ghost var i := LowerBinary(op.op, a, b, old(nextReg)).value.0;
        assert before + [i] + [StoreTo(rhs.value, a.value.slot)] == before + [i, StoreTo(rhs.value, a.value.slot)];
      }
    }

    method VisitCall(e: Expr) returns (r: Option<TypedValue>)
      requires Valid() && e.Call?
      modifies this`blocks, this`nextReg
      ensures Emitted(old(State()), LowerExpr(e, old(symbols), funcs, old(nextReg)), r)
      decreases e, 0
    {
      if e.callee !in funcs {
        return None;
      }
      ghost var before := blocks[insertBlock];
      var args := VisitArgs(e.args);
      if args == None || Types(args.value) != funcs[e.callee].params {
        return None;
      }
      ghost var code := LowerArgs(e.args, old(symbols), funcs, old(nextReg)).value.code;
      var reg := nextReg;
      var i := CallI(reg, e.callee, Operands(args.value));
      Emit(i);
      nextReg := reg + 1;
      r := Some(TypedValue(funcs[e.callee].result, Temp(reg), RValue, false));
      assert before + code + [i] == before + (code + [i]);
    }

    /** The arguments from the i-th on, after the code and values of those before. */
    ghost function ArgsFrom(args: seq<Expr>, i: nat, code: Code, tvs: seq<TypedValue>): Option<EmittedArgs>
      requires i <= |args|
      reads this
    {
      match LowerArgs(args[i..], symbols, funcs, nextReg)
      case None => None
      case Some(b) => Some(EmittedArgs(code + b.code, b.next, tvs + b.tvs))
    }

    method VisitArgs(args: seq<Expr>) returns (r: Option<seq<TypedValue>>)
      requires Valid()
      modifies this`blocks, this`nextReg
      ensures match LowerArgs(args, old(symbols), funcs, old(nextReg))
              case None => r == None
              case Some(em) => r == Some(em.tvs) && State() == old(State()).Append(em.code).(next := em.next)
      decreases args, 0
    {
      hide LowerExpr;
      ghost var before := blocks[insertBlock];
      ghost var code: Code := [];
      var tvs: seq<TypedValue> := [];
      var i := 0;
      assert args[0..] == args;
      assert before + [] == before;
      ghost var all := LowerArgs(args, symbols, funcs, nextReg);
      assert all.Some? ==> [] + all.value.code == all.value.code && [] + all.value.tvs == all.value.tvs;
      while i < |args|
        invariant 0 <= i <= |args| && Valid()
        invariant State() == old(State()).Append(code).(next := nextReg)
        invariant LowerArgs(args, symbols, funcs, old(nextReg)) == ArgsFrom(args, i, code, tvs)
      {
        assert args[i..][0] == args[i] && args[i..][1..] == args[i + 1..];
        label L:
        var a := VisitExpr(args[i]);
        if a == None {
          return None;
        }
        ghost var em := LowerExpr(args[i], symbols, funcs, old@L(nextReg)).value;
        ghost var rest := LowerArgs(args[i + 1..], symbols, funcs, nextReg);
        assert before + code + em.code == before + (code + em.code);
        if rest.Some? {
          assert code + (em.code + rest.value.code) == code + em.code + rest.value.code;
          assert tvs + ([a.value] + rest.value.tvs) == tvs + [a.value] + rest.value.tvs;
        }
        code := code + em.code;
        tvs := tvs + [a.value];
        i := i + 1;
      }
      assert args[i..] == [] && code + [] == code && tvs + [] == tvs;
      r := Some(tvs);
    }

    // ---- statements ----

    /** What a visit of a statement does: what lowering says, or fail as lowering does. */
    ghost predicate Became(after: Option<Gen>, ok: bool)
      reads this
    {
      match after
      case None => !ok
      case Some(g) => ok && State() == g && g.Valid()
    }

    method VisitCondition(c: Expr) returns (r: Option<TypedValue>)
      requires Valid()
      modifies this`blocks, this`nextReg
      ensures Emitted(old(State()), LowerCondition(c, old(State()), funcs), r)
    {
      r := VisitExpr(c);
      if r != None && r.value.ty != BoolT {
        r := None;
      }
    }

    method VisitVariableDefinition(def: VariableDef) returns (ok: bool)
      requires Valid()
      modifies this
      ensures Became(LowerDef(def, old(State()), funcs), ok)
    {
      var init: Option<TypedValue>;
      if def.init.Some? {
        init := VisitExpr(def.init.value);
        if init == None {
          return false;
        }
      } else if def.declared == None || def.declared.value == VoidT {
        return false;
      } else {
        assert blocks[insertBlock] + [] == blocks[insertBlock];
        init := Some(TypedValue(def.declared.value, Constant(ZeroOf(def.declared.value)), RValue, true));
      }
      var ty := def.declared.GetOr(init.value.ty);
      if ty == VoidT || init.value.ty != ty {
        return false;
      }
      var known := FindSymbol(def.slot);
      if known.Some? {
        return false;
      }
      CreateEntryBlockAlloca(def.slot);
      Emit(StoreTo(init.value.value, def.slot));
      Declare(def.slot, Symbol(ty, def.isMutable));
      ok := true;
    }

    method VisitStep(step: Option<Expr>) returns (ok: bool)
      requires Valid()
      modifies this
      ensures Became(LowerStep(step, old(State()), funcs), ok)
    {
      if step == None {
        return true;
      }
      var r := VisitExpr(step.value);
      ok := r != None;
    }

    method VisitReturn(value: Option<Expr>) returns (ok: bool)
      requires Valid()
      modifies this
      ensures Became(LowerReturn(value, old(State()), funcs, returnType), ok)
    {
      if value == None {
        Emit(RetVoid);
        return true;
      }
      var r := VisitExpr(value.value);
      if r == None || r.value.ty != returnType {
        return false;
      }
      Emit(Ret(r.value.value));
      ok := true;
    }

    method VisitStmt(s: Stmt) returns (ok: bool)
      requires Valid()
      modifies this
      ensures Became(LowerStmt(s, old(State()), funcs, returnType), ok)
      decreases s, 2
    {
      match s {
        case EmptyStmt => ok := true;
        case ExprStmt(e) => ok := VisitStep(Some(e));
        case DefStmt(def) => ok := VisitVariableDefinition(def);
        case BlockStmt(nodes) => ok := VisitBlock(nodes);
        case IfStmt(_, _, _) => ok := VisitIf(s);
        case WhileStmt(_, _) => ok := VisitWhile(s);
        case ForStmt(_, _, _, _) => ok := VisitFor(s);
        case ReturnStmt(r) => ok := VisitReturn(r);
      }
    }

    method VisitBlock(nodes: seq<Stmt>) returns (ok: bool)
      requires Valid()
      modifies this
      ensures Became(LowerStmt(BlockStmt(nodes), old(State()), funcs, returnType), ok)
      decreases nodes, 0
    {
      symbols := symbols + [map[]];
      ghost var start := State();
      var i := 0;
      assert nodes[0..] == nodes;
      while i < |nodes|
        invariant 0 <= i <= |nodes| && Valid()
        invariant LowerAll(nodes, start, funcs, returnType) == LowerAll(nodes[i..], State(), funcs, returnType)
      {
        assert nodes[i..][0] == nodes[i] && nodes[i..][1..] == nodes[i + 1..];
        var done := VisitStmt(nodes[i]);
        if !done {
          return false;
        }
        i := i + 1;
      }
      assert nodes[i..] == [];
      symbols := symbols[..|symbols| - 1];
      ok := true;
    }

    /** The condition of an if and its branch, to blocks of which only the first is inserted yet. */
    method BeginIfBlocks(cond: Operand, elseExists: bool) returns (elseBB: nat, mergeBB: nat)
      requires Valid()
      modifies this
      ensures elseBB == |old(blocks)| + 1 && mergeBB == |old(blocks)| + 2
      ensures State() == BeginIf(old(State()), cond, elseExists)
    {
      var thenBB := CreateInsertedBlock();
      elseBB := CreateBlock();
      mergeBB := CreateBlock();
      if elseExists {
        Emit(CondBr(cond, thenBB, elseBB));
      } else {
        Emit(CondBr(cond, thenBB, mergeBB));
      }
      insertBlock := thenBB;
    }

    method VisitElse(elseBlock: Stmt, elseBB: nat, mergeBB: nat) returns (ok: bool)
      requires Valid() && elseBB < |blocks| && mergeBB == elseBB + 1
      modifies this
      ensures Became(LowerElse(elseBlock, old(State()), elseBB, funcs, returnType), ok)
      decreases elseBlock, 3
    {
      ok := true;
      if elseBlock != EmptyStmt {
        InsertBlock(elseBB);
        insertBlock := elseBB;
        ok := VisitStmt(elseBlock);
        if ok {
          Emit(Br(mergeBB));
        }
      }
    }

    method VisitBranches(s: Stmt, elseBB: nat, mergeBB: nat) returns (ok: bool)
      requires Valid() && s.IfStmt? && mergeBB == elseBB + 1 < |blocks| && |symbols| > 1
      modifies this
      ensures Became(LowerBranches(s, old(State()), elseBB, funcs, returnType), ok)
      decreases s, 0
    {
      ok := VisitStmt(s.ifBlock);
      if !ok {
        return;
      }
      Emit(Br(mergeBB));
      ok := VisitElse(s.elseBlock, elseBB, mergeBB);
      if !ok {
        return;
      }
      InsertBlock(mergeBB);
      insertBlock := mergeBB;
      symbols := symbols[..|symbols| - 1];
    }

    method VisitIf(s: Stmt) returns (ok: bool)
      requires Valid() && s.IfStmt?
      modifies this
      ensures Became(LowerIf(s, old(State()), funcs, returnType), ok)
      decreases s, 1
    {
      symbols := symbols + [map[]];
      var cond := VisitCondition(s.condition);
      if cond == None {
        return false;
      }
      var elseBB, mergeBB := BeginIfBlocks(cond.value.value, s.elseBlock != EmptyStmt);
      ok := VisitBranches(s, elseBB, mergeBB);
    }

    /** Branches to a new block and goes on there. */
    method BranchToNewBlock() returns (b: nat)
      requires Valid()
      modifies this
      ensures b == |old(blocks)| && State() == BranchToNew(old(State()))
    {
      b := CreateInsertedBlock();
      Emit(Br(b));
      insertBlock := b;
    }

    method GoToNewBlock() returns (b: nat)
      requires Valid()
      modifies this
      ensures b == |old(blocks)| && State() == GoToNew(old(State()))
    {
      b := CreateInsertedBlock();
      insertBlock := b;
    }

    method VisitWhile(s: Stmt) returns (ok: bool)
      requires Valid() && s.WhileStmt?
      modifies this
      ensures Became(LowerWhile(s, old(State()), funcs, returnType), ok)
      decreases s, 0
    {
      symbols := symbols + [map[]];
      var condBB := BranchToNewBlock();
      var cond := VisitCondition(s.condition);
      if cond == None {
        return false;
      }
      var bodyBB := GoToNewBlock();
      ok := VisitStmt(s.block);
      if ok {
        CloseWhile(cond.value.value, condBB, bodyBB);
      }
    }

    method CloseWhile(cond: Operand, condBB: nat, bodyBB: nat)
      requires Valid() && condBB < |blocks| && |symbols| > 1
      modifies this
      ensures State() == EndWhile(old(State()), cond, condBB, bodyBB)
    {
      var bodyInsertBlock := insertBlock;
      var endBB := CreateInsertedBlock();
      // true: branch to body, false: branch to the end
      insertBlock := condBB;
      Emit(CondBr(cond, bodyBB, endBB));
      insertBlock := bodyInsertBlock;
      Emit(Br(condBB));
      insertBlock := endBB;
      symbols := symbols[..|symbols| - 1];
    }

    method VisitInit(init: Option<VariableDef>) returns (ok: bool)
      requires Valid()
      modifies this
      ensures Became(LowerInit(init, old(State()), funcs), ok)
    {
      ok := true;
      if init.Some? {
        ok := VisitVariableDefinition(init.value);
      }
    }

    method VisitFor(s: Stmt) returns (ok: bool)
      requires Valid() && s.ForStmt?
      modifies this
      ensures Became(LowerFor(s, old(State()), funcs, returnType), ok)
      decreases s, 0
    {
      symbols := symbols + [map[]];
      var initBB := BranchToNewBlock();
      ok := VisitInit(s.init);
      if !ok {
        return;
      }
      var condBB := GoToNewBlock();
      var cond := VisitCondition(s.end);
      if cond == None {
        return false;
      }
      var bodyBB := GoToNewBlock();
      ok := VisitStmt(s.block);
      if !ok {
        return;
      }
      var bodyInsertBlock := insertBlock;
      var stepBB := GoToNewBlock();
      ok := VisitStep(s.step);
      if ok {
        CloseFor(cond.value.value, initBB, condBB, bodyBB, bodyInsertBlock, stepBB);
      }
    }

    method CloseFor(cond: Operand, initBB: nat, condBB: nat, bodyBB: nat, bodyEnd: nat, stepBB: nat)
      requires Valid() && |symbols| > 1 && initBB + 1 < |blocks| && bodyEnd < |blocks| && stepBB < |blocks|
      requires condBB == initBB + 1 && bodyBB == initBB + 2
      modifies this
      ensures State() == EndFor(old(State()), cond, initBB, bodyEnd, stepBB)
    {
      var endBB := CreateInsertedBlock();
      insertBlock := initBB;
      Emit(Br(condBB));
      // true: branch to body, false: branch to the end
      insertBlock := condBB;
      Emit(CondBr(cond, bodyBB, endBB));
      insertBlock := bodyEnd;
      Emit(Br(stepBB));
      insertBlock := stepBB;
      Emit(Br(condBB));
      insertBlock := endBB;
      symbols := symbols[..|symbols| - 1];
    }

    // ---- functions ----

    method VisitParams(params: seq<Param>) returns (ok: bool)
      requires Valid()
      modifies this
      ensures Became(LowerParams(params, 0, old(State())), ok)
    {
      var i := 0;
      assert params[0..] == params;
      while i < |params|
        invariant 0 <= i <= |params| && Valid()
        invariant LowerParams(params, 0, old(State())) == LowerParams(params[i..], i, State())
      {
        var p := params[i];
        assert params[i..][0] == p && params[i..][1..] == params[i + 1..];
        if p.ty == VoidT {
          return false;
        }
        CreateEntryBlockAlloca(p.slot);
        Declare(p.slot, Symbol(p.ty, false));
        Emit(StoreTo(Temp(i), p.slot));
        i := i + 1;
      }
      assert params[i..] == [];
      ok := true;
    }

    /** Generates a whole function, ending a void one with a return if it needs it. */
    method VisitFunctionDefinition(f: FunctionDef, globals: Scope) returns (ok: bool)
      requires Valid() && State() == Start(globals, |f.params|) && returnType == f.returnType
      modifies this
      ensures Became(LowerFunction(f, globals, funcs), ok)
    {
      ok := VisitParams(f.params);
      if ok {
        ok := VisitBlock(f.body);
      }
      if ok && returnType == VoidT && (f.body == [] || !f.body[|f.body| - 1].ReturnStmt?) {
        Emit(RetVoid);
      }
    }
  }
}
