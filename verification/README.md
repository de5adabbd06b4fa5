# Varuna compiler: a verified model

This project models five parts of the Varuna compiler in Dafny and proves what they promise.

1. **Code generation.** The visitors turn the statements of a function into a graph of basic
   blocks by moving an insert point; a later pass cuts what follows a terminator and ends
   the remaining blocks with `unreachable`. The main results say that a compiled function
   returns, goes wrong or runs for ever exactly when the source function does, with the same
   value, store and sequence of calls (`CompiledFunction.dfy`). The source has a big-step
   meaning (`SourceMeaning.dfy`), the block graph a small-step one (`Ir.dfy`).
   `CodegenVisitor.dfy` and the class in `Strip.dfy` are the code in its imperative form,
   proved equal to the functions of `Lowering.dfy` and `Strip.dfy`. `Typing.dfy` says which functions
   are well typed, without any code, and `TypingTheorems.dfy` that just those are compiled;
   `VariableMemory.dfy` that every variable they touch has its memory.
2. **The expression parser**, a shunting-yard loop with two stacks that calls itself for
   arguments. `ExpressionGrammar.dfy` and `PrecedenceTrees.dfy` say, without any stack, which
   tree a sequence of operands and operators stands for; the parser returns that tree, it is
   the only one that respects the precedence table, and parsing undoes printing.
   `PrecedenceLevels.dfy` lists the operators level by level and says how two of them group.
   `StackDiscipline.dfy` has the invariant of the two stacks and `ExpressionParser.dfy` the class.
   The `Signed` files add prefix operators and subscripts anywhere: `SignedGrammar.dfy` says
   where they may stand and what they mean, `SignedReading.dfy` what the loop makes of them,
   `SignedCounts.dfy` how it fails, and `ParserLimits.dfy` has the theorems.
3. **The UTF-8/16/32 codec.** `Utf8Standard.dfy` states sections 3 and 4 of RFC 3629, and
   `Utf16Standard.dfy` section 2 of RFC 2781, over octets and units as bit-vectors;
   `CharacterCode.dfy` has what holds of every such code. The loops of the codec, with their
   shifts, masks and wrap-around, are proved against these definitions; `Utf8Errors.dfy` says by
   the octets what becomes of bad text.
4. **The lexer and source positions**: nested comments against a grammar, string and number
   literals against the way they are written, the operator loop against the table, lines and
   columns in 32 bits, and a round trip for whole texts with any blanks and comments in them
   (`Separators.dfy`, `WrittenTexts.dfy`). `Spellings.dfy` spells out every keyword, operator, prefix
   and suffix, `EscapeSequences.dfy` the escapes. `Scanning.dfy` is the lexer as functions of a
   position, `Lexer.dfy` the class.
5. **Parent pointers** of the syntax tree and the search for the enclosing function
   (`ParentSolver.dfy`), on a heap of nodes.

`dafny verify dfyconfig.toml` checks the whole project.

## What the code does not do

These are places where the code and its documentation, or the code and an expected law, part.
The model follows the code.

- A literal comes back from its canonical escaping if and only if no backslash stands right
  before a quote in it (`StringLiterals.LiteralRoundTrip`, `BackslashQuoteIsCut`); the loop
  looks back two characters only. A literal is reported as unclosed if and only if a line break
  comes before any unescaped quote, so one cut off by the end of the file is accepted
  (`StringLiterals.UnclosedIff`).
- A prefix operator takes the whole rest of the expression as its operand, where the language
  guide says `-` and `not` work as expected. An expression is parsed if and only if no prefix
  operator stands inside grouping parentheses, no `+` or `-` right behind `not`, and no operator
  at all between the brackets of a subscript (`ParserLimits.ParsesSigned`, `SubscriptIff`).
  An operator between brackets is an error. A misplaced sign is an error too, or makes the parser
  take the top of an empty stack: this exactly if, when an operator or a closing parenthesis has
  taken its operators off the stack, fewer are left waiting than signs have been misplaced so far
  (`ParserLimits.FailsAsItsFate`; the first fault counts, call arguments included). So
  `(-a)` takes the top of an empty stack, `a + (-b)` is an error, and in `a + (-b) op c` it
  depends on whether op closes the plus (`ParserLimits.SignInGroup`).
- Stepping a source location back is exact if and only if no line break is crossed or the line
  reached is as wide as the one remembered (`SourceLocations.BackIsExactIff`).
- The language guide writes a byte literal with the suffix `b`; the lexer knows only `o` for it
  and reports an error (`NumberLiterals.GuideByteSuffix`). A decimal zero with the suffix `o` is
  taken for the prefix of an octal number; every other integer is read back as written
  (`NumberLiterals.IntegerReadBack`).
- `replace_invalid` throws instead of repairing exactly on texts that end within a sequence
  (`Utf8Checked.RepairFailsIff`).
- The exception for an invalid code point always carries the code point 0, since `validate_next`
  does not hand out a rejected one (third-party/utf8/source/utf8/checked.h:136-155).
- The comment on the punctuation characters lists fewer than the code takes: `()*+,-./` are missing
  (src/util/StringUtils.h:208-213, `Spellings.PunctuationMarks`).
- `%` and `rem` are one operation (`ExprSimulation.ModIsRem`), although the comments at the token
  types call one modulo and the other remainder.
- Casts between integers and `bool` hand a null operand to LLVM
  (src/codegen/TypeCast.cpp:38-130). In the model they are not lowered: a cast is lowered if and
  only if it is one from an integer to an integer (`ExprSimulation.CastLowersIff`).

## Model

| member | source | states |
|---|---|---|
| CompiledFunction.CompilationPreservesReturns | src/codegen/CodegenVisitorVisit.cpp:633-811 | the compiled and stripped function returns v with a final store and call trace exactly when the source function does |
| CompiledFunction.CompilationPreservesWrong | src/codegen/CodegenVisitorVisit.cpp:633-811 | it does something undefined (overflow, division by zero, unset variable, falling off the end) exactly when the source does |
| CompiledFunction.CompilationPreservesDivergence | src/codegen/CodegenVisitorVisit.cpp:633-811 | it runs for ever exactly when the source does |
| CompiledFunction.CompiledSimulates | src/codegen/CodegenVisitorVisit.cpp:633-811 | every run of the source, cut at any number of loop iterations, is matched by a run of the block graph |
| CompiledFunction.AllBlocksTerminated | src/codegen/CodegenVisitor.cpp:148-205 | before the strip, every block but the one generation ended in holds a terminator, and in a void function that one too |
| CompiledFunction.AtMostOneUnreachable | src/codegen/CodegenVisitor.cpp:189-202 | the strip adds `unreachable` to at most one block of a function, and to none of a void function |
| CompiledFunction.BranchesStayInside | src/codegen/CodegenVisitorVisit.cpp:32-322 | every branch leads to a block inserted in the function, and none to the entry |
| VariableMemory.EveryVariableHasMemory | src/codegen/CodegenVisitorVisit.cpp:373-435 | in every function that compiles, each variable an inserted block loads or stores, and that is no global, has an alloca in the entry block, before every other instruction there |
| VariableMemory.AllocasOnlyInFront | src/codegen/CodegenVisitor.cpp:279-287 | and no alloca stands anywhere else |
| TypingTheorems.CompiledIffWellTyped | src/codegen/CodegenVisitorVisit.cpp:633-811 | a function is compiled if and only if it is well typed, by a judgement over declared types, mutability and signatures |
| TypingTheorems.StmtTyped | src/codegen/CodegenVisitorVisit.cpp:32-435 | the same for every statement, which leaves the variables in scope that the judgement says |
| TypingTheorems.ExprTyped | src/codegen/CodegenVisitorVisit.cpp:847-1106 | the same for every expression, whose type, category and mutability are those of the judgement |
| TypingTheorems.AssignTyped | src/codegen/TypeOperation.cpp:43-118 | an assignment is lowered if and only if its left side is a mutable variable and the types fit |
| Terminators.SealedStmt | src/codegen/CodegenVisitorVisit.cpp:32-322 | every statement leaves all blocks it made, but the insert block, with a terminator |
| Terminators.LeadsStmt | src/codegen/CodegenVisitorVisit.cpp:32-322 | the branches of a statement lead to blocks it inserted |
| BlockGrowth.GrowsStmt | src/codegen/CodegenVisitorVisit.cpp:32-322 | a statement only appends to the insert block and adds blocks; no other block changes |
| StmtSimulation.SimStmt | src/codegen/CodegenVisitorVisit.cpp:32-322 | running the blocks of a statement ends as its big-step meaning says |
| StmtSimulation.SimIf | src/codegen/CodegenVisitorVisit.cpp:32-123 | the blocks of an if statement, with or without else, do what it means |
| StmtSimulation.SimWhile | src/codegen/CodegenVisitorVisit.cpp:251-322 | so do those of a while loop |
| StmtSimulation.SimFor | src/codegen/CodegenVisitorVisit.cpp:125-243 | so do those of a for loop: initialisation, then test, body and step |
| StmtSimulation.SimLoop | src/codegen/CodegenVisitorVisit.cpp:125-322 | a cycle of head, body and latch blocks does what the loop means, for any number of iterations |
| StmtSimulation.SimReturn | src/codegen/CodegenVisitorVisit.cpp:812-845 | return evaluates, then ends the run with the value |
| StmtSimulation.SimDef | src/codegen/CodegenVisitorVisit.cpp:373-435 | a definition stores its initial value, or the zero of its type |
| StmtSimulation.DefaultIsZero | src/codegen/CodegenVisitorVisit.cpp:373-435 | that zero is 0 or false |
| ExprSimulation.SimExpr | src/codegen/CodegenVisitorVisit.cpp:847-1106 | the code of an expression computes its value and has its effects in order |
| ExprSimulation.SimAssignment | src/codegen/CodegenVisitorVisit.cpp:1028-1050 | the left side is loaded before the right side is evaluated, and that load is the value of the assignment |
| ExprSimulation.SimCall | src/codegen/CodegenVisitorVisit.cpp:1052-1106 | arguments are evaluated from left to right and the call is recorded with their values |
| ExprSimulation.OpcodeMeaning | src/codegen/TypeOperation.cpp:150-214 | the instruction chosen for an integral or bool operator means what the operator means |
| ExprSimulation.UnaryCodeMeaning | src/codegen/TypeOperation.cpp:120-148 | so do the instructions for negation and not |
| ExprSimulation.CastCodeMeaning | src/codegen/TypeCast.cpp:38-83 | integer casts keep the low bits with sign |
| ExprSimulation.ModIsRem | src/codegen/TypeOperation.cpp:150-214 | `%` and `rem` become the same code and mean the same |
| ExprSimulation.CastLowersIff | src/codegen/TypeCast.cpp:38-130 | a cast is lowered if and only if it is one from an integer to an integer |
| ExprSimulation.QuotientIsSDivide | src/codegen/TypeOperation.cpp:150-214 | division truncating toward zero, defined by magnitudes, is signed machine division |
| Strip.CutAtFirst | src/codegen/CodegenVisitor.cpp:155-186 | a stripped block is its code up to and including the first terminator |
| Strip.CutUnterminated | src/codegen/CodegenVisitor.cpp:189-202 | a block without terminator gets exactly `unreachable` at its end |
| Strip.CutOneTerminator | src/codegen/CodegenVisitor.cpp:148-205 | a stripped block has one terminator, and it is last |
| Strip.CutTwice | src/codegen/CodegenVisitor.cpp:148-205 | a second strip changes nothing |
| Strip.CutAddsUnreachable | src/codegen/CodegenVisitor.cpp:148-205 | the strip only shortens a block if and only if the block had a terminator |
| Strip.IrModule.StripBlock | src/codegen/CodegenVisitor.cpp:155-202 | the in-place loop over one block's instructions gives the cut block and touches no other |
| Strip.IrModule.StripInstructionsAfterTerminators | src/codegen/CodegenVisitor.cpp:148-205 | the pass strips every block of every function |
| CodegenVisitors.CodegenVisitor.VisitExpr | src/codegen/CodegenVisitorVisit.cpp:847-1106 | the visitor appends the code of an expression at the insert point, or fails as the lowering does |
| CodegenVisitors.CodegenVisitor.VisitIf | src/codegen/CodegenVisitorVisit.cpp:32-123 | the visitor's blocks, insert point and scopes after an if statement |
| CodegenVisitors.CodegenVisitor.VisitWhile | src/codegen/CodegenVisitorVisit.cpp:251-322 | the same after a while loop |
| CodegenVisitors.CodegenVisitor.VisitFor | src/codegen/CodegenVisitorVisit.cpp:125-243 | the same after a for loop |
| CodegenVisitors.CodegenVisitor.VisitReturn | src/codegen/CodegenVisitorVisit.cpp:812-845 | the same after a return |
| CodegenVisitors.CodegenVisitor.VisitBlock | src/codegen/CodegenVisitorVisit.cpp:1112-1145 | a block visits its statements in order in a scope of its own |
| CodegenVisitors.CodegenVisitor.VisitVariableDefinition | src/codegen/CodegenVisitorVisit.cpp:373-435 | alloca in the entry block, store, and declaration in the top scope |
| CodegenVisitors.CodegenVisitor.AssignmentOperation | src/codegen/TypeOperation.cpp:43-118 | the load, operation and store an assignment emits, or its refusal, which is for the reasons `AssignTyped` gives |
| CodegenVisitors.CodegenVisitor.CreateEntryBlockAlloca | src/codegen/CodegenVisitor.cpp:279-287 | the finished entry block has the alloca at its front; every other block and the insert point are as before |
| CodegenVisitors.CodegenVisitor.VisitFunctionDefinition | src/codegen/CodegenVisitorVisit.cpp:633-811 | parameters, body and the final return of a void function, as the lowering has them |
| Codegen.GenerateFunction | src/codegen/CodegenVisitor.cpp:64-113 | generating and then stripping a function gives the compiled function the theorems are about |
| ParseTheorems.ParseUndoesPrint | src/core/parser/ParseExpression.cpp:48-306 | printing any tree of operators, names, literals and calls and parsing it returns the tree and stops at the terminator |
| ParseTheorems.PrintIsShortest | src/core/parser/Parser.cpp:175-250 | the parentheses printed are the fewest the precedence table allows |
| ParseTheorems.ParsesSequence | src/core/parser/ParseExpression.cpp:48-306 | every balanced infix sequence is parsed to its climbing tree, whose leaves and operators in order are the input without grouping parentheses |
| ParseTheorems.OneTreeRespects | src/core/parser/Parser.cpp:175-250 | that tree, and no other, has these tokens and respects precedence, associativity and parentheses |
| ParseTheorems.TokensInjective | src/core/parser/ParseExpression.cpp:48-306 | a token sequence is grouped into operands, calls and parentheses in one way only |
| PrecedenceLevels.GroupingLaw | src/core/parser/Parser.cpp:175-250 | `a p b q c` groups to the right exactly if q stands in a tighter level than p or both are assignments, for all operands and all operators, whose nine levels are listed |
| PrecedenceLevels.OneLevelEach | src/core/parser/Parser.cpp:175-250 | every binary operator stands in exactly one level |
| PrecedenceTrees.ClimbRespects | src/core/parser/Parser.cpp:175-250 | the climbing tree respects the table and has the tokens of the sequence |
| PrecedenceTrees.ClimbFlatten | src/core/parser/Parser.cpp:175-250 | flattening a tree that respects the table and climbing again gives it back |
| ParseProof.RunTree | src/core/parser/ParseExpression.cpp:67-239 | over the tokens of a tree the loop leaves exactly its right spine pending on the stacks |
| ParseProof.ParsesTo | src/core/parser/ParseExpression.cpp:48-306 | parsing the tokens of a tree that respects the table gives the tree |
| ParseProof.FlushPending | src/core/parser/ParseExpression.cpp:160-202 | popping for an operator that closes a tree's root rebuilds the whole tree |
| ParseProof.RunArgs | src/core/parser/ParseExpression.cpp:426-465 | an argument list is parsed argument by argument through to its parenthesis |
| StackDiscipline.StepKeeps | src/core/parser/ParseExpression.cpp:67-239 | each round keeps the order of the stacked precedences, the markers and the operand count, and pops no empty stack |
| StackDiscipline.SequenceIsLegal | src/core/parser/ParseExpression.cpp:67-239 | on every balanced infix sequence each round up to its end meets a token the loop can go on with, and all parentheses are closed there |
| StackDiscipline.AlwaysDisciplined | src/core/parser/ParseExpression.cpp:67-239 | so on every such sequence the discipline holds after each round |
| StackDiscipline.RunEndsWithOne | src/core/parser/ParseExpression.cpp:241-305 | behind it exactly one operand is left at the terminator, and it is the result |
| ExpressionParsers.Parser.ParseExpression | src/core/parser/ParseExpression.cpp:48-306 | the loop with its two stacks gives the result the theorems are about, for every token list that ends with the end of file |
| ExpressionParsers.Parser.ParseIdentifierExpression | src/core/parser/ParseExpression.cpp:403-424 | a name, a call or a subscript |
| ExpressionParsers.Parser.ParseFunctionCallExpression | src/core/parser/ParseExpression.cpp:426-465 | the arguments up to the closing parenthesis, or the failure |
| ExpressionParsers.Parser.ParseSubscriptExpression | src/core/parser/ParseExpression.cpp:467-488 | the subscript up to its bracket, or the failure |
| ParserLimits.ParsesSigned | src/core/parser/ParseExpression.cpp:48-306 | with prefix operators, calls, parentheses and subscripts anywhere, an expression is parsed, to what it stands for, if and only if its prefix operators are placed |
| ParserLimits.FailsAsItsFate | src/core/parser/ParseExpression.cpp:97-202 | every other expression is reported or takes the top of an empty stack, as the count of waiting operators and misplaced signs says |
| ParserLimits.SignInGroup | src/core/parser/ParseExpression.cpp:97-117 | a sign in parentheses: empty stack when it comes first, an error behind an operator, and again an empty stack when a later operator closes that one |
| ParserLimits.SignTakesTheSum | src/core/parser/ParseExpression.cpp:128-221 | a plus, minus or `not` in front of a sequence applies to all of it |
| ParserLimits.SubscriptIff | src/core/parser/ParseExpression.cpp:467-488 | a subscript is parsed if and only if a single operand stands between its brackets, and that operand is parsed |
| SignedReading.ParsesPhrase | src/core/parser/ParseExpression.cpp:48-306 | over the tokens of any expression with prefix operators the loop goes through the stacks phrase by phrase, to a value or a fault |
| SignedCounts.ReadCounts | src/core/parser/ParseExpression.cpp:97-202 | the operands on the stack are always the waiting operators less the misplaced signs, so a count alone tells how reading an expression ends |
| SignedCounts.FateIff | src/core/parser/ParseExpression.cpp:128-148 | nothing goes wrong exactly where the prefix operators are placed |
| SignedMeaning.ReadMeans | src/core/parser/ParseExpression.cpp:241-305 | where they are, applying what is left on the stacks gives the tree in which a prefix operator has the whole rest as operand |
| SignedGrammar.MeaningIsClimb | src/core/parser/Parser.cpp:175-250 | without prefix operators that tree is the one that respects the precedence table |
| CharacterCodes.ConcatReads | third-party/utf8/source/utf8/checked.h:257-264 | values written one after the other are read back in full, whatever follows them |
| Utf8Standard.Utf8Inverse | third-party/utf8/source/utf8/checked.h:72-96 | the grammar of RFC 3629 section 4 and the encoding of section 3 are inverse to each other, shortest forms only |
| Utf8Standard.EncodingIsRead | third-party/utf8/source/utf8/checked.h:72-96 | an encoded scalar value is read back and its octets are all that is consumed |
| Utf8Standard.CharIsEncoding | third-party/utf8/source/utf8/core.h:222-272 | re-encoding what was read gives exactly the octets consumed |
| Utf8Standard.ValidIffReadToEnd | third-party/utf8/source/utf8/core.h:287-303 | octets encode some sequence of scalar values exactly when reading reaches their end |
| Utf8Standard.EncodeAllInjective | third-party/utf8/source/utf8/core.h:299-303 | the sequence of scalar values behind a valid text is unique |
| Utf8Standard.LongestValidPrefix | third-party/utf8/source/utf8/core.h:287-297 | reading stops at the end of the longest valid prefix |
| Utf8Standard.Utf32RoundTrip | third-party/utf8/source/utf8/checked.h:248-264 | UTF-32 to UTF-8 and back is the identity |
| Utf16Standard.Utf16Inverse | third-party/utf8/source/utf8/checked.h:206-246 | sections 2.1 and 2.2 of RFC 2781 are inverse to each other |
| Utf16Standard.PairedIffReadToEnd | third-party/utf8/source/utf8/checked.h:206-231 | units can be read to the end exactly when every surrogate has its partner next to it |
| Utf16Standard.Utf16RoundTrip | third-party/utf8/source/utf8/checked.h:206-246 | UTF-16 to UTF-8 and back is the identity on well-paired units |
| Utf16Standard.Utf8RoundTrip | third-party/utf8/source/utf8/checked.h:206-246 | UTF-8 to UTF-16 and back is the identity on valid text |
| Utf8Core.SequenceLength | third-party/utf8/source/utf8/core.h:98-113 | the shifts classify first octets by their ranges |
| Utf8Core.IsTrail | third-party/utf8/source/utf8/core.h:68-72 | the shift recognises exactly the tail octets |
| Utf8Core.IncreaseSafely | third-party/utf8/source/utf8/core.h:137-147 | one step forward and what it meets: the end, no tail, or a tail |
| Utf8Core.GetSequence2 | third-party/utf8/source/utf8/core.h:163-176 | the payload bits of a two-octet sequence, or the first error |
| Utf8Core.GetSequence3 | third-party/utf8/source/utf8/core.h:178-195 | the same for three octets |
| Utf8Core.GetSequence4 | third-party/utf8/source/utf8/core.h:197-218 | the same for four octets |
| Utf8Core.Judge | third-party/utf8/source/utf8/core.h:252-267 | the checks on the decoded number find what the octet ranges say is wrong, in the same order |
| Utf8Core.DiagnoseOk | third-party/utf8/source/utf8/core.h:222-272 | no error is diagnosed exactly when the grammar has a character here |
| Utf8Core.ValidateNext | third-party/utf8/source/utf8/core.h:222-272 | reads a character of the grammar or reports the error its octets call for, and moves only on success |
| Utf8Core.FindInvalid | third-party/utf8/source/utf8/core.h:287-297 | the end of the longest prefix that encodes scalar values |
| Utf8Core.IsValid | third-party/utf8/source/utf8/core.h:299-303 | true exactly when the octets encode some sequence of scalar values |
| Utf8Checked.Append | third-party/utf8/source/utf8/checked.h:72-96 | appends the encoding of a scalar value, and throws on anything else |
| Utf8Checked.Next | third-party/utf8/source/utf8/checked.h:136-155 | decodes a character, or throws what its error calls for without moving |
| Utf8Checked.Prior | third-party/utf8/source/utf8/checked.h:162-176 | goes back to the last octet that is no tail and decodes there, or throws |
| Utf8Checked.PriorUndoesNext | third-party/utf8/source/utf8/checked.h:136-176 | from behind a character `prior` finds its start and its code point again |
| Utf8Checked.ForthAndBack | third-party/utf8/source/utf8/checked.h:162-194 | n characters forward and n back lead to the start |
| Utf8Checked.AheadByOne | third-party/utf8/source/utf8/checked.h:189-194 | the n-th character ahead is the n-th scalar value of the text |
| Utf8Checked.Advance | third-party/utf8/source/utf8/checked.h:189-194 | moves n characters ahead, or throws where the text stops being valid |
| Utf8Checked.Distance | third-party/utf8/source/utf8/checked.h:196-204 | the number of code points, defined exactly on valid text |
| Utf8Checked.ReplaceInvalid | third-party/utf8/source/utf8/checked.h:98-127 | copying valid characters and writing one mark for each bad sequence, for every input |
| Utf8Checked.RepairFromMark | third-party/utf8/source/utf8/checked.h:98-127 | with a valid mark the output encodes scalar values, or the text was cut off |
| Utf8Checked.RepairFromBadMark | third-party/utf8/source/utf8/checked.h:98-127 | an invalid mark is an error only when it is needed |
| Utf8Checked.RepairKeepsValid | third-party/utf8/source/utf8/checked.h:98-127 | valid text is repaired to itself |
| Utf8Checked.RepairIdempotent | third-party/utf8/source/utf8/checked.h:98-127 | the output is valid, and repairing it again, with any mark, changes nothing |
| Utf8Checked.RepairFailsIff | third-party/utf8/source/utf8/checked.h:108-110 | repair throws exactly on texts that end within a sequence |
| Utf8Errors.RepairByOctets | third-party/utf8/source/utf8/checked.h:98-127 | one mark for each stray octet, and one for a bad sequence with all the tails behind it |
| Utf8Errors.ExceptionByOctets | third-party/utf8/source/utf8/checked.h:136-155 | which exception is thrown: text cut off within a sequence, a whole sequence of a number that is no code point, or anything else |
| Utf8Checked.Utf16To8 | third-party/utf8/source/utf8/checked.h:206-231 | converts exactly the well-paired units, and else throws the unit found out |
| Utf8Checked.PairSum | third-party/utf8/source/utf8/core.h:52-53 | adding the offset, which wraps around in 32 bits, gives the value of the pair |
| Utf8Checked.UnitBits | third-party/utf8/source/utf8/checked.h:238-243 | adding the 16-bit offset to the upper bits gives the units of RFC 2781 |
| Utf8Checked.Utf8To16 | third-party/utf8/source/utf8/checked.h:233-246 | converts exactly the valid texts |
| Utf8Checked.Utf32To8 | third-party/utf8/source/utf8/checked.h:248-255 | encodes scalar values, and throws the first value that is none |
| Utf8Checked.Utf8To32 | third-party/utf8/source/utf8/checked.h:257-264 | decodes exactly the valid texts, to the values that encode back to them |
| Utf8Unchecked.UncheckedAppend | third-party/utf8/source/utf8/unchecked.h:37-58 | the same octets as the checked `append` for every scalar value |
| Utf8Unchecked.UncheckedNext | third-party/utf8/source/utf8/unchecked.h:60-89 | the same value and position as the checked `next` wherever that succeeds |
| Utf8Unchecked.UncheckedPrior | third-party/utf8/source/utf8/unchecked.h:97-103 | the same value and position as the checked `prior` wherever that succeeds |
| Utf8Unchecked.UncheckedDistance | third-party/utf8/source/utf8/unchecked.h:119-127 | the number of code points of a valid text |
| Utf8Unchecked.UncheckedUtf16To8 | third-party/utf8/source/utf8/unchecked.h:129-142 | the checked conversion on well-paired units |
| Utf8Unchecked.UncheckedUtf8To16 | third-party/utf8/source/utf8/unchecked.h:144-157 | the checked conversion on valid text |
| Utf8Unchecked.UncheckedUtf32To8 | third-party/utf8/source/utf8/unchecked.h:159-166 | the checked conversion on scalar values |
| Utf8Unchecked.UncheckedUtf8To32 | third-party/utf8/source/utf8/unchecked.h:168-175 | the checked conversion on valid text |
| SourceLocations.ForthIsExact | src/util/SourceLocation.cpp:60-95 | after any number of steps forward, line and column are those of the position, in 32 bits |
| SourceLocations.BackValues | src/util/SourceLocation.cpp:103-135 | after steps back the line is exact and the column counts from the remembered length |
| SourceLocations.BackIsExactIff | src/util/SourceLocation.cpp:103-135 | stepping back is exact if and only if no line break is crossed or the line reached is as wide as the one remembered |
| SourceLocations.BackOverOneLineBreak | src/util/SourceLocation.cpp:103-135 | it is exact while at most one line break is crossed |
| SourceLocations.SourceLocation.Increment | src/util/SourceLocation.cpp:60-77 | one step forward; nothing at the end of the text |
| SourceLocations.SourceLocation.Decrement | src/util/SourceLocation.cpp:103-116 | one step back |
| SourceLocations.SourceLocation.Plus | src/util/SourceLocation.cpp:84-96 | a copy moved by a distance, backwards if it is negative |
| SourceLocations.SourceLocation.Minus | src/util/SourceLocation.cpp:123-135 | the opposite |
| Comments.BlockCommentIff | src/core/lexer/LexerStringMatch.cpp:46-77 | a block comment is skipped to a place exactly when the grammar of nested comments ends one there, and runs into the end of the file exactly when it has none |
| Comments.OneBody | src/core/lexer/LexerStringMatch.cpp:46-77 | a comment has one end and one nesting structure |
| Comments.LineCommentEnd | src/core/lexer/LexerStringMatch.cpp:16-45 | a line comment ends just past the first line break that has something behind it |
| StringLiterals.LiteralRoundTrip | src/core/lexer/LexerStringMatch.cpp:82-229 | a written literal is read back, up to just past its closing quote, if and only if no backslash stands right before a quote in it |
| StringLiterals.BackslashQuoteIsCut | src/core/lexer/LexerStringMatch.cpp:104-119 | backslash and quote is the shortest content that is not read back |
| StringLiterals.SeparateMeans | src/core/lexer/LexerStringMatch.cpp:104-119 | what that condition says, position by position |
| StringLiterals.LiteralEnds | src/core/lexer/LexerStringMatch.cpp:82-229 | every literal ends at the first line break or unescaped quote, or at the end of the file, and holds the characters up to there, unescaped |
| StringLiterals.UnclosedIff | src/core/lexer/LexerStringMatch.cpp:87-122 | a literal is reported if and only if a line break comes before any unescaped quote; one the end of the file cuts off is taken without an error |
| EscapeSequences.HexReadBack | src/core/lexer/LexerStringMatch.cpp:125-225 | every octet is read back from `\x` and its one or two hexadecimal digits, in either case, and just those characters are taken |
| EscapeSequences.OctReadBack | src/core/lexer/LexerStringMatch.cpp:125-225 | every octet is read back from `\o` and its one to three octal digits; of a larger number the low octet is |
| EscapeSequences.NamedReadBack | src/core/lexer/LexerStringMatch.cpp:125-225 | the codes the named escapes stand for |
| EscapeSequences.QuoteReadBack | src/core/lexer/LexerStringMatch.cpp:125-225 | an escaped quote stands for itself in a literal it delimits, and for a backslash in the other kind |
| EscapeSequences.UnknownIsDropped | src/core/lexer/LexerStringMatch.cpp:125-225 | an escape of any other letter, or without its digit, is dropped with a warning |
| EscapeSequences.HexInContent | src/core/lexer/LexerStringMatch.cpp:125-225 | within a literal the hexadecimal escape stands for its octet, whatever follows |
| EscapeSequences.OctInContent | src/core/lexer/LexerStringMatch.cpp:125-225 | so does the octal one |
| LexerTheorems.LongestOperator | src/core/lexer/LexerGetNextToken.cpp:302-331 | the operator loop takes the longest operator of the table that begins the text, and the whole run of punctuation when none does |
| LexerTheorems.WordSelects | src/core/lexer/LexerGetNextToken.cpp:103-115 | in every text a word token has an exact location that selects its own text |
| LexerTheorems.OperatorSelects | src/core/lexer/LexerGetNextToken.cpp:302-331 | so has an operator token |
| LexerTheorems.CreateTokenSelects | src/core/lexer/Lexer.cpp:103-116 | the same for every token made behind text that is its value and has no line break |
| Separators.GapIsSkipped | src/core/lexer/LexerGetNextToken.cpp:17-57 | any sequence of the six blank characters, line comments and nested block comments is skipped |
| Separators.LineCommentAtEnd | src/core/lexer/LexerStringMatch.cpp:16-45 | a line comment cut off by the end of the file ends the text without a warning |
| Separators.BlockCommentAtEnd | src/core/lexer/LexerStringMatch.cpp:46-77 | a block comment that never closes ends the text with a warning |
| WrittenTexts.LexUndoesWriting | src/core/lexer/Lexer.cpp:65-101 | words, table operators and decimal numbers, with any blanks and comments between them, in front and behind, are lexed back to the same types, values and places, then the end of file, without error |
| WrittenTexts.AllReadAsMeans | src/core/lexer/Lexer.cpp:65-101 | what that says of the i-th token: type, value, and a place given by the lengths of what is written before it |
| WrittenTexts.RunReachesEofIff | src/core/lexer/Lexer.cpp:65-101 | the tokens of any text end with the end of file if and only if there was no error, nor a warning where those are errors |
| Spellings.WordTypeIff | src/core/lexer/LexerStringMatch.cpp:231-273 | a word is a keyword, a bool literal or an operator if and only if it is spelled like it |
| Spellings.IdentifierIff | src/core/lexer/LexerStringMatch.cpp:231-273 | a word is an identifier if and only if it is spelled like no keyword |
| Spellings.OperatorIff | src/core/lexer/LexerStringMatch.cpp:275-311 | punctuation is an operator or punctuator of a type if and only if it is spelled like it |
| Spellings.LettersAndDigits | src/util/StringUtils.h:171-237 | which characters letters, digits and the characters of identifiers are, one by one |
| Spellings.PunctuationMarks | src/util/StringUtils.h:208-213 | the same for punctuation |
| Spellings.UnrecognizedCharacter | src/core/lexer/LexerGetNextToken.cpp:59-338 | a character that is neither blank nor printable ASCII is a token of its own, with a warning |
| Spellings.WrittenInteger | src/core/lexer/LexerGetNextToken.cpp:118-237 | prefix, digits and suffix, each spelled out, are read as an integer of that base and width; without a suffix it is an i32 |
| Spellings.WrittenFloat | src/core/lexer/LexerGetNextToken.cpp:238-274 | digits with a point and a suffix are read as a float of that precision; without a suffix it is an f64 |
| Spellings.WrittenQuoted | src/core/lexer/LexerGetNextToken.cpp:70-301 | a quoted literal, with or without the letter in front of it, gives a token of its kind with its content and mark |
| NumberLiterals.IntegerReadBack | src/core/lexer/LexerGetNextToken.cpp:118-237 | an integer in any base, with any suffix or none, is read back to its digits, base and width, if and only if it is not a decimal zero with suffix o |
| NumberLiterals.ZeroIsLost | src/core/lexer/LexerGetNextToken.cpp:145-151 | that one is taken for the prefix of an octal number whose digits begin with whatever follows, and is marked octal or reported |
| NumberLiterals.FloatReadBack | src/core/lexer/LexerGetNextToken.cpp:238-274 | a decimal number with a point, with any suffix or none, is read back |
| NumberLiterals.GuideByteSuffix | src/core/lexer/LexerGetNextToken.cpp:186-237 | a binary literal with the suffix b of the language guide is an error |
| Lexers.Lexer.LexComment | src/core/lexer/LexerStringMatch.cpp:12-80 | the comment at the location, skipped in place |
| Lexers.Lexer.LexBlockComment | src/core/lexer/LexerStringMatch.cpp:46-77 | the counting loop skips what the grammar theorem is about, and warns at the end of the file |
| Lexers.Lexer.LexStringLiteral | src/core/lexer/LexerStringMatch.cpp:82-229 | the two loops give the literal the round-trip theorem is about |
| Lexers.Lexer.UnescapeOne | src/core/lexer/LexerStringMatch.cpp:125-225 | one escape sequence, with one or two hexadecimal or one to three octal digits |
| Lexers.Lexer.LexWord | src/core/lexer/LexerGetNextToken.cpp:103-115 | the longest run of identifier characters |
| Lexers.Lexer.LexNumber | src/core/lexer/LexerGetNextToken.cpp:118-274 | a number with base, digits and suffix, and its error |
| Lexers.Lexer.LexOperator | src/core/lexer/LexerGetNextToken.cpp:302-331 | the loop takes what the longest-operator theorem is about |
| Lexers.Lexer.GetNextToken | src/core/lexer/LexerGetNextToken.cpp:12-338 | the next token, the new location and the new error level |
| Lexers.Lexer.CreateToken | src/core/lexer/Lexer.cpp:103-116 | the token with the location its length back |
| Lexers.Lexer.Run | src/core/lexer/Lexer.cpp:65-101 | all tokens up to the end of file or the first error |
| ParentSolvers.ParentSolverVisitor.Visit | src/ast/ParentSolverVisitor.cpp:17-223 | each kind of node is visited by its own overload; in the end every member a node owns, as its class declares them, has that node as parent, the root has the one given, and nothing else changes |
| ParentSolvers.ParentSolverVisitor.VisitIf | src/ast/ParentSolverVisitor.cpp:30-37 | the overload for if statements reaches the condition and both blocks |
| ParentSolvers.ParentSolverVisitor.VisitFunctionPrototype | src/ast/ParentSolverVisitor.cpp:109-121 | the one for prototypes reaches the name, the return type and all parameters |
| ParentSolvers.MembersHaveOwners | src/ast/Node.h:91-93 | in a solved tree the parent of every owned member is its owner |
| ParentSolvers.FieldsHaveOwners | src/ast/ParentSolverVisitor.cpp:17-223 | the same field by field for every kind of node, such as the three members of an if |
| ParentSolvers.Node.GetFunction | src/ast/Node.cpp:10-29 | the first function definition on the chain of parents, or null |
| ParentSolvers.GetFunctionIsInnermost | src/ast/Node.cpp:10-29 | in a solved tree the search ends for every node and finds the innermost enclosing function definition, or null |

## Left out

- CompiledFunction.CompilationPreservesReturns: floating point, char, byte, string, C string and function values, type aliases, globals' initialisers, forward declarations and imports are not in the modelled programs; neither are definitions inside expressions. Names are resolved to slots beforehand. Signed overflow, division by zero, reading an unset variable and falling off the end of a non-void function count as wrong on both sides.
- CompiledFunction.CompilationPreservesWrong: the same programs; what counts as wrong is the same on both sides, so a program that reads an unset variable is not told apart from one that overflows.
- CompiledFunction.CompilationPreservesDivergence: a call always returns, so this is about the loops of the function itself; a callee that runs for ever is not modelled.
- Unary plus casts to whatever type is named `int` (src/codegen/TypeOperation.cpp:120-148). Only an alias such as `use int = i32;` can have that name (src/codegen/CodegenVisitorVisit.cpp:1151-1178), and it is a type of its own; as aliases are not modelled, unary plus is never lowered in the model.
- CodegenVisitors.CodegenVisitor.CreateEntryBlockAlloca: allocas reserve memory without a value, and a slot is found by its number, not by an address. Debug information, the constant folding of the instruction builder, name mangling and LLVM's own verifier are not part of the model.
- CodegenVisitors.CodegenVisitor.VisitExpr: assignments to `bool` do not compare the operand types, as in the code (src/codegen/TypeOperation.cpp:328-376); a value of another type is then stored as it is.
- ParseTheorems.ParsesSequence: expressions with prefix operators and subscripts are treated in `ParserLimits`. `let` inside an expression and the conversion of literal texts to numbers are left out. The range assertion at src/core/parser/ParseExpression.cpp:62-63, which excludes the marker pushed a few lines below it, is ignored.
- ParserLimits.ParsesSigned: is about expressions whose operands and operators are all there; of other token sequences, such as an operator without a right operand, the model says only what the loop does.
- ExpressionParsers.Parser.ParseExpression: popping an empty stack and reading past the last token give the result `Undefined` in place of undefined behaviour.
- Utf8Core.ValidateNext: needs an octet at the position, because the C++ reads it before it compares the position with the end.
- Utf8Checked.Advance: asks for no more characters than a valid text has, for the same reason.
- Utf8Checked.ReplaceInvalid: the two inner loops and one round of the outer one are methods of their own, as is the loop body of `Utf16To8`; the output written before an exception is not modelled.
- Utf8Unchecked.UncheckedAppend: says nothing about numbers that are no scalar values, on which the unchecked encoder writes octets that are no UTF-8.
- Utf8Unchecked.UncheckedNext: needs the octets that the first one announces to be there; beyond that the code reads outside its buffer.
- WrittenTexts.LexUndoesWriting: leaves out a comment right behind the operator `/`, which would make another comment of the two, and numbers with bases, points or suffixes and quoted literals, which `Spellings` and `NumberLiterals` treat one at a time.
- Lexers.Lexer.GetNextToken: the assertion that something follows a base prefix is ignored; without it the lexer takes a null character at the end of the text. An escape sequence cut off by the end of a literal reads a null character.
- Lexers.Lexer.Run: when the first token is an error the C++ also reads the last element of an empty vector; the model only reports the error.
- ParentSolvers.ParentSolverVisitor.Visit: every member is there, as the code needs, which follows the pointers without a test; the four kinds that own nothing share one visit, and the overloads for the base classes, which the tree has no nodes of, are left out. Members that are not nodes are not modelled.
- The parser for statements and modules, the syntax tree dump, serialisation, module files, the type table, processes, temporary files, logging, the command line and error message layout: plumbing, input and output, or easy members.
- The order of the layout of an error message (src/util/SourceLocation.cpp:160-280) and the byte order mark functions of the codec: easy members.
