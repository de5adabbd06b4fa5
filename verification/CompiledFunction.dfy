/** The main result on code generation: the stripped blocks of a function do what the
    function means, for every argument, every store and every behaviour of its callees. */
module CompiledFunction {
  import opened Options
  import opened ProgramSyntax
  import opened SourceMeaning
  import opened Ir
  import opened Lowering
  import opened ExprSimulation
  import opened BlockGrowth
  import opened StmtSimulation
  import opened Terminators
  import opened Strip

  /** The finished function: blocks as generated, allocas in place, then stripped. */
  function Compile(f: FunctionDef, globals: Scope, funcs: Functions): Option<IrFunction> {
    match LowerFunction(f, globals, funcs)
    case None => None
    case Some(g) => Some(Stripped(IrFunction(Assemble(g), g.layout)))
  }

  /** Registers at entry: the i-th argument is in register i. */
  function ArgRegs(args: seq<Value>): Regs {
    map i: nat | i < |args| :: args[i]
  }

  function Entry(blocks: seq<Code>, args: seq<Value>, st: State): Config
    requires blocks != []
  {
    Running(blocks[0], ArgRegs(args), st)
  }

  // ---- parameters ----

  /** One more at the end of a block, and the rest behind it. */
  lemma AppendedTwice(blocks: seq<Code>, b: nat, i: Instr, rest: Code, all: Code)
    requires b < |blocks| && all == [i] + rest
    ensures var once := blocks[b := blocks[b] + [i]];
      once[b := once[b] + rest] == blocks[b := blocks[b] + all]
  {
    assert blocks[b] + [i] + rest == blocks[b] + all;
  }

  lemma {:induction false} ParamsShape(params: seq<Param>, i: nat, g: Gen)
    requires g.Valid() && LowerParams(params, i, g).Some?
    ensures var g' := LowerParams(params, i, g).value;
            && g'.cur == g.cur && |g'.blocks| == |g.blocks| && g'.layout == g.layout
            && g'.blocks == g.blocks[g.cur := g.blocks[g.cur] + ParamCode(params, i)]
    decreases params
  {
    if params == [] {
      assert g.blocks[g.cur] + [] == g.blocks[g.cur];
    } else {
      var store := StoreTo(Temp(i), params[0].slot);
      var g1 := g.EntryAlloca(params[0].slot).Declare(params[0].slot, Symbol(params[0].ty, false)).Append([store]);
      ParamsShape(params[1..], i + 1, g1);
      AppendedTwice(g.blocks, g.cur, store, ParamCode(params[1..], i + 1), ParamCode(params, i));
    }
  }

  function ParamCode(params: seq<Param>, i: nat): (code: Code)
    ensures |code| == |params|
  {
    if params == [] then [] else [StoreTo(Temp(i), params[0].slot)] + ParamCode(params[1..], i + 1)
  }

  lemma {:induction false} RunParams(
    params: seq<Param>, args: seq<Value>, i: nat, k: Code, blocks: seq<Code>, st: State, world: World)
    requires i + |params| == |args|
    ensures Run(blocks, Running(ParamCode(params, i) + k, ArgRegs(args), st), world, |params|)
         == Running(k, ArgRegs(args), st.(store := BindParams(params, args[i..], st.store)))
    decreases params
  {
    var regs := ArgRegs(args);
    if params == [] {
      assert [] + k == k;
    } else {
      var code := ParamCode(params, i) + k;
      var rest := ParamCode(params[1..], i + 1) + k;
      assert code == [StoreTo(Temp(i), params[0].slot)] + rest;
      RunLast(blocks, StoreTo(Temp(i), params[0].slot), rest, regs, st, world);
      var st1 := st.(store := st.store[params[0].slot := args[i]]);
      assert args[i..][0] == args[i] && args[i..][1..] == args[i + 1..];
      RunParams(params[1..], args, i + 1, k, blocks, st1, world);
      RunAdds(blocks, Running(code, regs, st), world, 1, |params| - 1);
    }
  }

  // ---- the body ----

  lemma {:induction false} ReturnsAtEnd(ss: seq<Stmt>, st: State, world: World, fuel: nat)
    requires EndsInReturn(ss)
    ensures !ExecAll(ss, st, world, fuel).Normal?
    decreases ss
  {
    if |ss| > 1 {
      match Exec(ss[0], st, world, fuel) {
        case Normal(st1) =>
          assert ss[1..][|ss[1..]| - 1] == ss[|ss| - 1];
          ReturnsAtEnd(ss[1..], st1, world, fuel);
        case _ =>
      }
    } else {
      assert ss[0].ReturnStmt?;
    }
  }

  lemma FunctionParts(f: FunctionDef, globals: Scope, funcs: Functions) returns (g1: Gen, g2: Gen)
    requires LowerFunction(f, globals, funcs).Some?
    ensures g1.Valid() && g2.Valid() && g1.cur == 0
    ensures g1.layout == [0] && g1.blocks == [ParamCode(f.params, 0)]
    ensures LowerStmt(BlockStmt(f.body), g1, funcs, f.returnType) == Some(g2)
    ensures LowerFunction(f, globals, funcs).value ==
            if f.returnType == VoidT && !EndsInReturn(f.body) then g2.Append([RetVoid]) else g2
  {
    var g0 := Start(globals, |f.params|);
    g1 := LowerParams(f.params, 0, g0).value;
    ParamsShape(f.params, 0, g0);
    assert [] + ParamCode(f.params, 0) == ParamCode(f.params, 0);
    g2 := LowerStmt(BlockStmt(f.body), g1, funcs, f.returnType).value;
  }

  /** What follows the body: a return from a void function, and nothing from another. */
  lemma SimBodyEnd(
    f: FunctionDef, g2: Gen, g: Gen, blocks: seq<Code>, o1: Outcome, world: World, regs: Regs, fuel: nat)
    requires g2.Valid() && Contains(blocks, g2) && blocks == g.blocks && o1.Normal?
    requires g == if f.returnType == VoidT && !EndsInReturn(f.body) then g2.Append([RetVoid]) else g2
    requires !EndsInReturn(f.body) || f.returnType != VoidT
    ensures Simulates(blocks, world, Running(At(blocks, g2), regs, o1.st),
                      if f.returnType == VoidT then Returned(VoidV, o1.st) else Wrong, [], fuel)
  {
    var c := Running(At(blocks, g2), regs, o1.st);
    RunOne(blocks, c, world);
    if f.returnType == VoidT {
      assert At(blocks, g2) == [RetVoid];
      assert Run(blocks, c, world, 1) == Halted(VoidV, o1.st);
    } else {
      assert At(blocks, g2) == [];
      assert Run(blocks, c, world, 1) == Stuck;
    }
  }

  lemma FunctionContains(f: FunctionDef, globals: Scope, funcs: Functions, g1: Gen, g2: Gen)
    requires LowerFunction(f, globals, funcs).Some? && g1.Valid() && g2.Valid()
    requires LowerStmt(BlockStmt(f.body), g1, funcs, f.returnType) == Some(g2)
    requires LowerFunction(f, globals, funcs).value ==
             if f.returnType == VoidT && !EndsInReturn(f.body) then g2.Append([RetVoid]) else g2
    ensures var blocks := LowerFunction(f, globals, funcs).value.blocks; Contains(blocks, g1) && Contains(blocks, g2)
  {
    var blocks := LowerFunction(f, globals, funcs).value.blocks;
    assert Contains(blocks, g2);
    GrowsStmt(BlockStmt(f.body), g1, funcs, f.returnType);
    ContainsOlder(blocks, g1, g2);
  }

  /** Before the allocas and the strip: the generated blocks do what the function means. */
  lemma SimFunction(
    f: FunctionDef, globals: Scope, funcs: Functions, args: seq<Value>, st: State, world: World, fuel: nat)
    requires LowerFunction(f, globals, funcs).Some? && |args| == |f.params|
    ensures var blocks := LowerFunction(f, globals, funcs).value.blocks;
            blocks != [] && Simulates(blocks, world, Entry(blocks, args, st), CallFunction(f, args, st, world, fuel), [], fuel)
  {
    var g1, g2 := FunctionParts(f, globals, funcs);
    FunctionContains(f, globals, funcs, g1, g2);
    var g := LowerFunction(f, globals, funcs).value;
    var blocks := g.blocks;
    var st1 := st.(store := BindParams(f.params, args, st.store));
    var regs := ArgRegs(args);
    assert blocks[0] == ParamCode(f.params, 0) + At(blocks, g1);
    assert args[0..] == args;
    RunParams(f.params, args, 0, At(blocks, g1), blocks, st, world);
    SimStmt(BlockStmt(f.body), g1, funcs, f.returnType, blocks, world, regs, st1, fuel);
    SimBody(f, g1, g2, g, args, st, world, fuel);
    Glue(blocks, world, Entry(blocks, args, st), |f.params|, Running(At(blocks, g1), regs, st1),
         CallFunction(f, args, st, world, fuel), [], fuel, fuel);
  }

  lemma SimBody(f: FunctionDef, g1: Gen, g2: Gen, g: Gen, args: seq<Value>, st: State, world: World, fuel: nat)
    requires |args| == |f.params| && g1.Valid() && g2.Valid() && Contains(g.blocks, g1) && Contains(g.blocks, g2)
    requires g == if f.returnType == VoidT && !EndsInReturn(f.body) then g2.Append([RetVoid]) else g2
    requires var st1 := st.(store := BindParams(f.params, args, st.store));
             Simulates(g.blocks, world, Running(At(g.blocks, g1), ArgRegs(args), st1),
                       ExecAll(f.body, st1, world, fuel), At(g.blocks, g2), fuel)
    ensures var st1 := st.(store := BindParams(f.params, args, st.store));
            Simulates(g.blocks, world, Running(At(g.blocks, g1), ArgRegs(args), st1),
                      CallFunction(f, args, st, world, fuel), [], fuel)
  {
    var st1 := st.(store := BindParams(f.params, args, st.store));
    var (o1, o) := (ExecAll(f.body, st1, world, fuel), CallFunction(f, args, st, world, fuel));
    if EndsInReturn(f.body) {
      ReturnsAtEnd(f.body, st1, world, fuel);
    }
    forall regs' | o1.Normal?
      ensures Simulates(g.blocks, world, Running(At(g.blocks, g2), regs', o1.st), o, [], fuel)
    {
      SimBodyEnd(f, g2, g, g.blocks, o1, world, regs', fuel);
    }
    InSequence(g.blocks, world, Running(At(g.blocks, g1), ArgRegs(args), st1), o1, At(g.blocks, g2), o, [], fuel);
  }

  // ---- allocas and the strip ----

  /** The configuration of the stripped function that goes with c. */
  function CutConfig(c: Config): Config {
    match c
    case Running(code, regs, st) => Running(Cut(code), regs, st)
    case _ => c
  }

  /** `stripped` holds the cut form of every block in `to`. */
  ghost predicate IsStripped(blocks: seq<Code>, stripped: seq<Code>, to: set<nat>) {
    |stripped| == |blocks| && forall b :: b in to && b < |blocks| ==> stripped[b] == Cut(blocks[b])
  }

  ghost predicate StaysIn(c: Config, to: set<nat>) {
    c.Running? ==> CodeLeadsTo(c.code, to)
  }

  lemma CutStep(blocks: seq<Code>, stripped: seq<Code>, c: Config, world: World, to: set<nat>)
    requires IsStripped(blocks, stripped, to) && StaysIn(c, to)
    requires forall b :: 0 <= b < |blocks| ==> CodeLeadsTo(blocks[b], to)
    ensures Step(stripped, CutConfig(c), world) == CutConfig(Step(blocks, c, world))
    ensures StaysIn(Step(blocks, c, world), to)
  {
    if c.Running? && c.code != [] {
      var i := c.code[0];
      assert TargetsOf(i) <= to;
      if !i.IsTerminator() {
        assert Cut(c.code)[1..] == Cut(c.code[1..]);
        forall j | 0 <= j < |c.code[1..]| ensures TargetsOf(c.code[1..][j]) <= to {
          assert c.code[1..][j] == c.code[j + 1];
        }
      }
    }
  }

  /** Stripping does not change a run. */
  lemma {:induction false} CutRun(blocks: seq<Code>, stripped: seq<Code>, c: Config, world: World, to: set<nat>, n: nat)
    requires IsStripped(blocks, stripped, to) && StaysIn(c, to)
    requires forall b :: 0 <= b < |blocks| ==> CodeLeadsTo(blocks[b], to)
    ensures Run(stripped, CutConfig(c), world, n) == CutConfig(Run(blocks, c, world, n))
    decreases n
  {
    if n > 0 {
      CutStep(blocks, stripped, c, world, to);
      CutRun(blocks, stripped, Step(blocks, c, world), world, to, n - 1);
    }
  }

  lemma {:induction false} RunAllocas(slots: seq<Slot>, k: Code, blocks: seq<Code>, regs: Regs, st: State, world: World)
    ensures Run(blocks, Running(AllocaCode(slots) + k, regs, st), world, |slots|) == Running(k, regs, st)
    decreases slots
  {
    if slots == [] {
      assert AllocaCode(slots) + k == k;
    } else {
      assert AllocaCode(slots) + k == [Alloca(slots[0])] + (AllocaCode(slots[1..]) + k);
      RunLast(blocks, Alloca(slots[0]), AllocaCode(slots[1..]) + k, regs, st, world);
      RunAllocas(slots[1..], k, blocks, regs, st, world);
      RunAdds(blocks, Running(AllocaCode(slots) + k, regs, st), world, 1, |slots| - 1);
    }
  }

  lemma {:induction false} CutAllocas(slots: seq<Slot>, k: Code)
    ensures Cut(AllocaCode(slots) + k) == AllocaCode(slots) + Cut(k)
    decreases slots
  {
    if slots == [] {
      assert AllocaCode(slots) + k == k && AllocaCode(slots) + Cut(k) == Cut(k);
    } else {
      assert AllocaCode(slots) + k == [Alloca(slots[0])] + (AllocaCode(slots[1..]) + k);
      CutAllocas(slots[1..], k);
      assert AllocaCode(slots) + Cut(k) == [Alloca(slots[0])] + (AllocaCode(slots[1..]) + Cut(k));
    }
  }

  /** The blocks of the function other than its entry. */
  function Inner(g: Gen): set<nat>
    requires g.layout != []
  {
    set i | 1 <= i < |g.layout| :: g.layout[i]
  }

  lemma ParamsLeadNowhere(params: seq<Param>, i: nat, to: set<nat>)
    ensures CodeLeadsTo(ParamCode(params, i), to)
  {
    forall j | 0 <= j < |ParamCode(params, i)| ensures TargetsOf(ParamCode(params, i)[j]) <= to {
      ParamIsStore(params, i, j);
    }
  }

  lemma {:induction false} ParamIsStore(params: seq<Param>, i: nat, j: nat)
    requires j < |params|
    ensures ParamCode(params, i)[j].StoreTo?
    decreases params
  {
    if j > 0 {
      ParamIsStore(params[1..], i + 1, j - 1);
    }
  }

  /** Branches lead to inserted blocks, and never to the entry. */
  lemma BranchesStayInside(f: FunctionDef, globals: Scope, funcs: Functions)
    requires LowerFunction(f, globals, funcs).Some?
    ensures var g := LowerFunction(f, globals, funcs).value;
            && g.layout != [] && g.layout[0] == 0
            && LeadsTo(g, Inner(g)) && 0 !in Inner(g)
            && forall i :: 0 <= i < |g.layout| ==> g.layout[i] < |g.blocks|
  {
    var g := LowerFunction(f, globals, funcs).value;
    var g1, g2 := FunctionParts(f, globals, funcs);
    SealedStmt(BlockStmt(f.body), g1, funcs, f.returnType);
    var to := Inner(g);
    ParamsLeadNowhere(f.params, 0, to);
    forall i | |g1.layout| <= i < |g2.layout| ensures g2.layout[i] in to {
      assert g.layout[i] == g2.layout[i];
    }
    LeadsStmt(BlockStmt(f.body), g1, funcs, f.returnType, to);
    LeadsToAppended(g2, g2.cur, [RetVoid], to);
    assert g2.layout[0] == g1.layout[0];
  }

  /** After code generation every block of the function but the one it ended in holds a
      terminator, and in a void function that one does too. */
  lemma AllBlocksTerminated(f: FunctionDef, globals: Scope, funcs: Functions)
    requires LowerFunction(f, globals, funcs).Some?
    ensures var g := LowerFunction(f, globals, funcs).value;
            && g.cur in g.layout
            && forall b :: b in g.layout && (b != g.cur || f.returnType == VoidT) ==>
                 b < |g.blocks| && HasTerminator(g.blocks[b])
  {
    var g := LowerFunction(f, globals, funcs).value;
    var g1, g2 := FunctionParts(f, globals, funcs);
    SealedStmt(BlockStmt(f.body), g1, funcs, f.returnType);
    BranchesStayInside(f, globals, funcs);
    if g2.cur != g1.cur {
      var j :| 0 <= j < |g2.layout[|g1.layout|..]| && g2.layout[|g1.layout|..][j] == g2.cur;
      assert g2.layout[|g1.layout| + j] == g2.cur;
    } else {
      assert g2.layout[0] == g1.layout[0];
    }
    if f.returnType == VoidT {
      if EndsInReturn(f.body) {
        ReturnTerminates(f.body, g1.AddScope(), funcs, f.returnType);
      } else {
        EndsTerminated(g2.blocks[g2.cur], RetVoid);
      }
    }
    forall b | b in g.layout && (b != g.cur || f.returnType == VoidT)
      ensures b < |g.blocks| && HasTerminator(g.blocks[b])
    {
      var i :| 0 <= i < |g.layout| && g.layout[i] == b;
      if b != g.cur {
        assert i == 0 ==> b == g1.layout[0] == g1.cur;
      }
    }
  }

  lemma {:induction false} ReturnTerminates(ss: seq<Stmt>, g: Gen, funcs: Functions, returnType: Ty)
    requires g.Valid() && EndsInReturn(ss) && LowerAll(ss, g, funcs, returnType).Some?
    ensures var g' := LowerAll(ss, g, funcs, returnType).value; HasTerminator(g'.blocks[g'.cur])
    decreases ss
  {
    var g1 := LowerStmt(ss[0], g, funcs, returnType).value;
    if |ss| > 1 {
      assert ss[1..][|ss[1..]| - 1] == ss[|ss| - 1];
      ReturnTerminates(ss[1..], g1, funcs, returnType);
    } else {
      match ss[0].returnValue {
        case None => EndsTerminated(g.blocks[g.cur], RetVoid);
        case Some(e) =>
          var em := LowerExpr(e, g.scopes, funcs, g.next).value;
          EndsTerminated(g.blocks[g.cur] + em.code, Ret(em.tv.value));
      }
      assert ss[1..] == [];
    }
  }

  /** The strip puts an `unreachable` in at most one block, and in none of a void function. */
  lemma AtMostOneUnreachable(f: FunctionDef, globals: Scope, funcs: Functions)
    requires Compile(f, globals, funcs).Some?
    ensures var g := LowerFunction(f, globals, funcs).value;
            && |Compile(f, globals, funcs).value.blocks| == |g.blocks|
            && forall b :: b in g.layout ==>
                 b < |g.blocks| && (Compile(f, globals, funcs).value.blocks[b] <= Assemble(g)[b]
                                    || (b == g.cur && f.returnType != VoidT))
  {
    var g := LowerFunction(f, globals, funcs).value;
    BranchesStayInside(f, globals, funcs);
    AllBlocksTerminated(f, globals, funcs);
    forall b | b in g.layout && (b != g.cur || f.returnType == VoidT)
      ensures b < |g.blocks| && Compile(f, globals, funcs).value.blocks[b] <= Assemble(g)[b]
    {
      if b == 0 {
        LaterTerminated(AllocaCode(g.allocas), g.blocks[0]);
      }
      CutAddsUnreachable(Assemble(g)[b]);
    }
  }

  lemma LaterTerminated(a: Code, b: Code)
    requires HasTerminator(b)
    ensures HasTerminator(a + b)
  {
    var i :| 0 <= i < |b| && b[i].IsTerminator();
    assert (a + b)[|a| + i] == b[i];
  }

  // ---- the main results ----

  /** The compiled function simulates the source function, run for run. */
  lemma CompiledSimulates(
    f: FunctionDef, globals: Scope, funcs: Functions, args: seq<Value>, st: State, world: World, fuel: nat)
    requires Compile(f, globals, funcs).Some? && |args| == |f.params|
    ensures var blocks := Compile(f, globals, funcs).value.blocks;
            blocks != [] && Simulates(blocks, world, Entry(blocks, args, st), CallFunction(f, args, st, world, fuel), [], fuel)
  {
    var g := LowerFunction(f, globals, funcs).value;
    var stripped := Compile(f, globals, funcs).value.blocks;
    var regs := ArgRegs(args);
    SimFunction(f, globals, funcs, args, st, world, fuel);
    BranchesStayInside(f, globals, funcs);
    StrippedBlocks(g, stripped);
    var c1 := Running(Cut(g.blocks[0]), regs, st);
    forall n: nat ensures Run(stripped, c1, world, n) == CutConfig(Run(g.blocks, Entry(g.blocks, args, st), world, n)) {
      CutRun(g.blocks, stripped, Entry(g.blocks, args, st), world, Inner(g), n);
    }
    var o := CallFunction(f, args, st, world, fuel);
    CutSimulates(g.blocks, stripped, world, Entry(g.blocks, args, st), o, fuel);
    CutAllocas(g.allocas, g.blocks[0]);
    RunAllocas(g.allocas, Cut(g.blocks[0]), stripped, regs, st, world);
    Glue(stripped, world, Entry(stripped, args, st), |g.allocas|, c1, o, [], fuel, fuel);
  }

  lemma StrippedBlocks(g: Gen, stripped: seq<Code>)
    requires g.layout != [] && g.layout[0] == 0 && 0 !in Inner(g)
    requires forall i :: 0 <= i < |g.layout| ==> g.layout[i] < |g.blocks|
    requires stripped == StripBlocks(Assemble(g), g.layout)
    ensures IsStripped(g.blocks, stripped, Inner(g))
    ensures stripped[0] == Cut(AllocaCode(g.allocas) + g.blocks[0])
  {
    assert 0 in g.layout;
  }

  lemma CutSimulates(blocks: seq<Code>, stripped: seq<Code>, world: World, c: Config, o: Outcome, fuel: nat)
    requires Simulates(blocks, world, c, o, [], fuel) && !o.Normal?
    requires forall n: nat :: Run(stripped, CutConfig(c), world, n) == CutConfig(Run(blocks, c, world, n))
    ensures Simulates(stripped, world, CutConfig(c), o, [], fuel)
  {
    match o {
      case Returned(v, st) =>
        var n: nat :| Run(blocks, c, world, n) == Halted(v, st);
        assert Run(stripped, CutConfig(c), world, n) == Halted(v, st);
      case Wrong =>
        var n: nat :| Run(blocks, c, world, n) == Stuck;
        assert Run(stripped, CutConfig(c), world, n) == Stuck;
      case _ =>
    }
  }

  /** Two ways a run can end are the same way. */
  lemma SameEnd(blocks: seq<Code>, c: Config, world: World, m: nat, n: nat)
    requires !Run(blocks, c, world, m).Running? && !Run(blocks, c, world, n).Running?
    ensures Run(blocks, c, world, m) == Run(blocks, c, world, n)
  {
    if m <= n {
      EndIsUnique(blocks, c, world, m, n);
    } else {
      EndIsUnique(blocks, c, world, n, m);
    }
  }

  /** Compilation preserves meaning: the compiled function returns v and leaves the store
      and the trace of calls st' exactly when the source function does, for some number of
      steps and some number of loop iterations. */
  lemma CompilationPreservesReturns(
    f: FunctionDef, globals: Scope, funcs: Functions, args: seq<Value>, st: State, world: World, v: Value, st': State)
    requires Compile(f, globals, funcs).Some? && |args| == |f.params|
    ensures var blocks := Compile(f, globals, funcs).value.blocks;
            && blocks != []
            && ((exists n: nat :: Run(blocks, Entry(blocks, args, st), world, n) == Halted(v, st'))
                <==> (exists fuel: nat :: CallFunction(f, args, st, world, fuel) == Returned(v, st')))
  {
    var blocks := Compile(f, globals, funcs).value.blocks;
    CompiledSimulates(f, globals, funcs, args, st, world, 0);
    var c := Entry(blocks, args, st);
    if n: nat :| Run(blocks, c, world, n) == Halted(v, st') {
      Ending(f, globals, funcs, args, st, world, n);
    }
    if fuel: nat :| CallFunction(f, args, st, world, fuel) == Returned(v, st') {
      CompiledSimulates(f, globals, funcs, args, st, world, fuel);
    }
  }

  /** The compiled function does something undefined exactly when the source function does. */
  lemma CompilationPreservesWrong(
    f: FunctionDef, globals: Scope, funcs: Functions, args: seq<Value>, st: State, world: World)
    requires Compile(f, globals, funcs).Some? && |args| == |f.params|
    ensures var blocks := Compile(f, globals, funcs).value.blocks;
            && blocks != []
            && ((exists n: nat :: Run(blocks, Entry(blocks, args, st), world, n) == Stuck)
                <==> (exists fuel: nat :: CallFunction(f, args, st, world, fuel) == Wrong))
  {
    var blocks := Compile(f, globals, funcs).value.blocks;
    CompiledSimulates(f, globals, funcs, args, st, world, 0);
    var c := Entry(blocks, args, st);
    if n: nat :| Run(blocks, c, world, n) == Stuck {
      Ending(f, globals, funcs, args, st, world, n);
    }
    if fuel: nat :| CallFunction(f, args, st, world, fuel) == Wrong {
      CompiledSimulates(f, globals, funcs, args, st, world, fuel);
    }
  }

  /** The compiled function runs for ever exactly when the source function does. */
  lemma CompilationPreservesDivergence(
    f: FunctionDef, globals: Scope, funcs: Functions, args: seq<Value>, st: State, world: World)
    requires Compile(f, globals, funcs).Some? && |args| == |f.params|
    ensures var blocks := Compile(f, globals, funcs).value.blocks;
            && blocks != []
            && ((forall n: nat :: Run(blocks, Entry(blocks, args, st), world, n).Running?)
                <==> (forall fuel: nat :: CallFunction(f, args, st, world, fuel) == TimeOut))
  {
    var blocks := Compile(f, globals, funcs).value.blocks;
    CompiledSimulates(f, globals, funcs, args, st, world, 0);
    var c := Entry(blocks, args, st);
    if n: nat :| !Run(blocks, c, world, n).Running? {
      Ending(f, globals, funcs, args, st, world, n);
    }
    if fuel: nat :| CallFunction(f, args, st, world, fuel) != TimeOut {
      CompiledSimulates(f, globals, funcs, args, st, world, fuel);
    }
  }

  /** A compiled run that has ended after n steps ended as the source does with fuel n. */
  lemma Ending(
    f: FunctionDef, globals: Scope, funcs: Functions, args: seq<Value>, st: State, world: World, n: nat)
    requires Compile(f, globals, funcs).Some? && |args| == |f.params|
    requires var blocks := Compile(f, globals, funcs).value.blocks;
             blocks != [] && !Run(blocks, Entry(blocks, args, st), world, n).Running?
    ensures var blocks := Compile(f, globals, funcs).value.blocks;
            CallFunction(f, args, st, world, n) ==
            match Run(blocks, Entry(blocks, args, st), world, n)
            case Halted(v, st') => Returned(v, st')
            case _ => Wrong
  {
    var blocks := Compile(f, globals, funcs).value.blocks;
    var c := Entry(blocks, args, st);
    CompiledSimulates(f, globals, funcs, args, st, world, n);
    match CallFunction(f, args, st, world, n) {
      case Returned(v, st') =>
        var m: nat :| Run(blocks, c, world, m) == Halted(v, st');
        SameEnd(blocks, c, world, m, n);
      case Wrong =>
        var m: nat :| Run(blocks, c, world, m) == Stuck;
        SameEnd(blocks, c, world, m, n);
      case _ =>
    }
  }
}
