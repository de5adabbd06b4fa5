/** Code generation of a function from start to end: the visitor, then the strip. */
module Codegen {
  import opened Options
  import opened ProgramSyntax
  import opened Ir
  import opened Lowering
  import opened Strip
  import opened CompiledFunction
  import opened CodegenVisitors

  /** Generates f and strips it; fails exactly when the lowering fails. */
  method GenerateFunction(f: FunctionDef, globals: Scope, funcs: Functions) returns (r: Option<IrFunction>)
    ensures r == Compile(f, globals, funcs)
  {
    var visitor := new CodegenVisitor(globals, |f.params|, funcs, f.returnType);
    var ok := visitor.VisitFunctionDefinition(f, globals);
    if !ok {
      return None;
    }
    BranchesStayInside(f, globals, funcs);
    var entry := AllocaCode(visitor.allocas) + visitor.blocks[0];
    var func := IrFunction(visitor.blocks[0 := entry], visitor.layout);
    var irModule := new IrModule([func]);
    irModule.StripInstructionsAfterTerminators();
    r := Some(irModule.functions[0]);
  }
}
