/** Cleaning up after code generation: instructions after a terminator are erased, and a
    block without one gets an `unreachable`. */
module Strip {
  import opened ProgramSyntax
  import opened Ir
  import opened Terminators

  /** What stripping leaves of a block. */
  function Cut(code: Code): Code {
    if code == [] then [Unreachable]
    else if code[0].IsTerminator() then [code[0]]
    else [code[0]] + Cut(code[1..])
  }

  /** Stripping keeps the code up to and including the first terminator. */
  lemma {:induction false} CutAtFirst(code: Code, i: nat)
    requires i < |code| && code[i].IsTerminator()
    requires forall j :: 0 <= j < i ==> !code[j].IsTerminator()
    ensures Cut(code) == code[..i + 1]
  {
    if i > 0 {
      CutAtFirst(code[1..], i - 1);
      assert code[..i + 1] == [code[0]] + code[1..][..i];
    } else {
      assert code[..1] == [code[0]];
    }
  }

  /** A block that had no terminator keeps its code and becomes unreachable after it. */
  lemma {:induction false} CutUnterminated(code: Code)
    requires !HasTerminator(code)
    ensures Cut(code) == code + [Unreachable]
  {
    if code != [] {
      forall i | 0 <= i < |code[1..]| ensures !code[1..][i].IsTerminator() {
        assert code[1..][i] == code[i + 1];
      }
      CutUnterminated(code[1..]);
      assert code == [code[0]] + code[1..];
    }
  }

  /** A stripped block has exactly one terminator, and that one last. */
  lemma {:induction false} CutOneTerminator(code: Code)
    ensures var c := Cut(code);
            |c| > 0 && forall i :: 0 <= i < |c| ==> (c[i].IsTerminator() <==> i == |c| - 1)
  {
    if code != [] && !code[0].IsTerminator() {
      CutOneTerminator(code[1..]);
    }
  }

  /** A second strip changes nothing. */
  lemma CutTwice(code: Code)
    ensures Cut(Cut(code)) == Cut(code)
  {
    var c := Cut(code);
    CutOneTerminator(code);
    CutAtFirst(c, |c| - 1);
  }

  /** `unreachable` is only ever put in where a block had no terminator. */
  lemma CutAddsUnreachable(code: Code)
    ensures Cut(code) <= code <==> HasTerminator(code)
  {
    if HasTerminator(code) {
      var n := FirstTerminator(code);
      CutAtFirst(code, n);
    } else {
      CutUnterminated(code);
    }
  }

  lemma {:induction false} FirstTerminator(code: Code) returns (i: nat)
    requires HasTerminator(code)
    ensures i < |code| && code[i].IsTerminator() && forall j :: 0 <= j < i ==> !code[j].IsTerminator()
  {
    i := 0;
    while !code[i].IsTerminator()
      invariant i < |code| && forall j :: 0 <= j < i ==> !code[j].IsTerminator()
      decreases |code| - i
    {
      i := i + 1;
    }
  }

  /** The blocks of a function that are part of it, stripped. */
  function StripBlocks(blocks: seq<Code>, layout: seq<nat>): (stripped: seq<Code>)
    ensures |stripped| == |blocks|
  {
    seq(|blocks|, b requires 0 <= b < |blocks| => if b in layout then Cut(blocks[b]) else blocks[b])
  }

  datatype IrFunction = IrFunction(blocks: seq<Code>, layout: seq<nat>) {
    predicate Valid() {
      forall i :: 0 <= i < |layout| ==> layout[i] < |blocks|
    }
  }

  function Stripped(f: IrFunction): IrFunction {
    f.(blocks := StripBlocks(f.blocks, f.layout))
  }

  class IrModule {
    var functions: seq<IrFunction>

    constructor (functions: seq<IrFunction>)
      ensures this.functions == functions
    {
      this.functions := functions;
    }

    ghost predicate Valid()
      reads this
    {
      forall f :: 0 <= f < |functions| ==> functions[f].Valid()
    }

    /** Walks one block, erasing what follows its first terminator. */
    method StripBlock(f: nat, bb: nat)
      requires Valid() && f < |functions| && bb < |functions[f].blocks|
      modifies this
      ensures Valid()
      ensures functions == old(functions)[f := old(functions)[f].(blocks :=
                             old(functions)[f].blocks[bb := Cut(old(functions)[f].blocks[bb])])]
    {
      var code := functions[f].blocks[bb];
      ghost var before := code;
      var termFound := false;
      var inst := 0;
      while inst < |code|
        invariant 0 <= inst <= |code| && functions == old(functions)
        invariant !termFound ==> code == before && forall j :: 0 <= j < inst ==> !code[j].IsTerminator()
        invariant termFound ==> Cut(before) == code[..inst]
        decreases |code| - inst
      {
        if !termFound && code[inst].IsTerminator() {
          CutAtFirst(before, inst);
          termFound := true;
          inst := inst + 1;
        } else if termFound {
          code := code[..inst] + code[inst + 1..];
        } else {
          inst := inst + 1;
        }
      }
      if !termFound {
        CutUnterminated(before);
        code := code + [Unreachable];
      } else {
        assert code[..inst] == code;
      }
      var func := functions[f];
      functions := functions[f := func.(blocks := func.blocks[bb := code])];
    }

    method StripFunction(f: nat)
      requires Valid() && f < |functions|
      modifies this
      ensures Valid() && functions == old(functions)[f := Stripped(old(functions)[f])]
    {
      ghost var func := functions[f];
      var i := 0;
      assert StripBlocks(func.blocks, func.layout[..0]) == func.blocks;
      while i < |functions[f].layout|
        invariant f < |functions| && Valid() && 0 <= i <= |func.layout|
        invariant functions == old(functions)[f := func.(blocks := StripBlocks(func.blocks, func.layout[..i]))]
      {
        var bb := functions[f].layout[i];
        CutTwice(func.blocks[bb]);
        StripBlock(f, bb);
        assert func.layout[..i + 1] == func.layout[..i] + [bb];
        assert functions[f].blocks == StripBlocks(func.blocks, func.layout[..i + 1]);
        i := i + 1;
      }
      assert func.layout[..i] == func.layout;
    }

    method StripInstructionsAfterTerminators()
      requires Valid()
      modifies this
      ensures Valid() && |functions| == |old(functions)|
      ensures forall f :: 0 <= f < |functions| ==> functions[f] == Stripped(old(functions)[f])
    {
      var f := 0;
      while f < |functions|
        invariant 0 <= f <= |functions| == |old(functions)| && Valid()
        invariant forall g :: 0 <= g < f ==> functions[g] == Stripped(old(functions)[g])
        invariant forall g :: f <= g < |functions| ==> functions[g] == old(functions)[g]
      {
        StripFunction(f);
        f := f + 1;
      }
    }
  }
}
