# A verified model of the TDS25 compiler

The repository is a compiler for TDS25, a small imperative language with integers, booleans, methods,
`if` and `while`. It type-checks and optimises the syntax tree, translates it to three-address code,
optionally reuses temporaries, and lowers the code to x86-64 assembly. This project models that chain
from the syntax tree to the instructions of the assembly and proves that meaning is preserved at every
stage and end to end: what the source does the assembly does (`EndToEnd.CompilerCorrect`), and nothing
else (`EndToEnd.CompilerExact`).

How the pieces fit:

- `Words`, `Source`: 64-bit two's complement arithmetic, the C `int` of the compiler, the syntax tree and
  what a program means. Execution is a fuelled evaluator; a program's observable behaviour is the value a
  method returns and the sequence of calls with their arguments. There is one variable cell per name and
  method, as in the back end. Values nobody may rely on (an unset variable, the result of a void call)
  are absent; an operation on one has no meaning and nothing is claimed about it.
- `Analyzer`, `AnalyzerInPlace`, `TypeSoundness`, `AnalyzerCorrect`, `AnalyzerExact`: type checking,
  constant folding, literal branches and dead loops. The first states the pass on values; the second is the
  pass as it runs, on a mutable tree whose nodes it overwrites, up to whole programs; the last gives the type
  rules and the reduced program without the pass, and proves that it accepts and yields exactly those.
- `Ir`, `IrGen`, `IrLayout`, `IrGenCorrect`, `IrGenExact`, `CodeSize`: three-address code with its machine
  (program counter, store, pending parameters, call stack), the generator class that appends to the buffer and
  keeps the use-count list, the simulation of the source by the generated code, the converse, and the length
  of the code.
- `TempFlow`, `TempPositions`, `TempReuse`, `ReuseOptimal`, `TempNeed`, `CodeNames`, `Optimizer`,
  `ReuseCorrect`: the discipline of temporaries in generated code, as a left-to-right acceptor and over
  positions, the one-pass renamer over counts, locks and shared name cells, its soundness, its optimality,
  the number of names a program needs, and the lockstep of the renamed code.
- `X86`, `XRuns`, `Lowering`, `ObjectCode`, `Frames`, `FrameExact`, `LoweringCorrect`, `GeneratedShape`,
  `Alignment`, `LoweringExact`: an x86-64 machine, what each emitted sequence does, the lowering as a
  function and as the class that runs it with a growing slot table, frame layout, the simulation of
  three-address code by the assembly under the System V AMD64 calling convention (sections 3.2.2 and 3.2.3
  of its ABI), the alignment of the stack at every call, and the converse simulation.
- `Mentions`: when frames are large enough, told from the source. `Scopes`: the parser's stack of symbol
  tables driven by two flags, and the lexical scoping it implements.
- `Runs`: runs of a deterministic machine. `EndToEnd`: the passes in sequence, as functions and as the
  classes run them. `Witnesses`: source programs on which the output is wrong, or may be.

Where the code and its documentation differ, the code is followed. Things that came out of the proofs:

- An optimised condition or shift divisor that is an identifier is taken for a literal, because the guards
  do not look at the kind of leaf. The rewriting is right exactly for literals
  (`BranchRemovalExact`, `LoopRemovalExact`, `ShiftedDivisionExact`), and the theorems assume literals there.
- The branch that the optimising analysis drops is never type-checked, so it accepts programs that the
  analysis without optimisation rejects (`UncheckedBranch`); of the programs accepted without, it rejects
  exactly those in which a fold divides by zero or overflows the quotient, where the compiler itself traps
  (`AcceptedInBothModes`).
- Equality compares any two operands of one type, inequality only integers (`ExprAccepted`).
- Folding is done in C `int`, run time in 64 bits: a fold is right exactly when the exact result fits
  (`FoldExact`; `FoldOverflows` is 2147483647 + 1).
- The frame is sized by the names the code mentions, but every parameter gets a slot: three unmentioned
  parameters overflow it (`UnmentionedOverflows`, `FrameOverflows` for the source method), and a call made
  there may overwrite a parameter; slots fit exactly when they are not more than the space reserved
  (`FrameFitsExactly`): when the unmentioned parameters are no more than the counted texts that get no slot,
  such as names of called methods, plus one if the count is odd (`FitsByTexts`). That holds when every
  parameter is mentioned (`MentionedFits`, `UsedParamsFit`).
- Arguments after the sixth are pushed first to last, although a comment there promises the reverse, and
  read last to first: argument lists arrive in order exactly up to seven arguments (`ReceivedExactly`).
- A seventh argument misaligns the stack at its call and at every call made while that one is suspended,
  unless another one is: rsp is a multiple of 16 at a call exactly when the number of arguments then on the
  stack is even (`CallsAligned`). So all calls of a run are aligned exactly when none has seven arguments
  (`AlignedExactly`, `AlignedByEvents`). `MisalignedCall` is an accepted program in which a call without
  stack arguments is misaligned; as the calling convention promises nothing there, it has no meaning in the
  machine.
- A name declared with two types in nested blocks is one cell, and a boolean method may return 2
  (`SharedCell`).
- The scope recorded for a method is the global one, not its own, exactly when its body has a nested block
  (`RecordedExactly`); and a method named like its own parameter or variable is rejected exactly when its
  body has none (`OwnNameClash`).

## Model

| member | source | states |
|---|---|---|
| Words.ShiftIsTruncDiv | object_code/object_code.c:224-239 | sign mask, bias, add, arithmetic shift equals division truncating toward zero by 2^k, for every 64-bit dividend, and the biased sum never overflows |
| Words.PowerOfTwoTestExact | intermediate_code/intermediate_code.c:208-214 | the bit test accepts exactly the powers of two a C int can hold, and ctz is the exponent |
| Words.TruncDivMeaning | object_code/object_code.c:212-222 | the quotient idiv leaves is the one whose remainder is smaller than the divisor and has the dividend's sign |
| Words.BitwiseIsLogical | object_code/object_code.c:198-210 | andq and orq compute the logical connectives on 0 and 1 |
| Words.WrapMeaning | object_code/object_code.c:198-210 | the 64-bit result is the one word congruent to the exact one, and no other |
| Words.WrapIntMeaning | semantic_analyzer/semantic_analyzer.c:77-111 | the same for the C int in which the compiler folds |
| TypeSoundness.ExprSound | semantic_analyzer/semantic_analyzer.c:60-268 | an expression accepted as BOOL evaluates to 0 or 1 whenever it evaluates, for every well-typed store and any call depth |
| TypeSoundness.StmtSound | semantic_analyzer/semantic_analyzer.c:26-58 | every accepted statement keeps the store well typed or returns a value of the declared type |
| TypeSoundness.CallSound | semantic_analyzer/semantic_analyzer.c:435-515 | every accepted method returns a value of its declared type |
| TypeSoundness.LogicIsBitwise | semantic_analyzer/semantic_analyzer.c:211-236 | in accepted programs the bitwise operators of the back end give the value of the logical ones |
| AnalyzerCorrect.FoldExact | semantic_analyzer/semantic_analyzer.c:77-235 | a fold has the run-time value if and only if the exact result fits a C int |
| AnalyzerCorrect.FoldOverflows | semantic_analyzer/semantic_analyzer.c:77-83 | an addition whose fold differs from its run-time value |
| AnalyzerCorrect.FoldingNormalizes | semantic_analyzer/semantic_analyzer.c:60-236 | no binary node with two literal children is left, anywhere in the tree |
| AnalyzerCorrect.ProgramNormalizes | semantic_analyzer/semantic_analyzer.c:60-411 | in the whole program the optimising analysis hands on, every expression is so folded, no if is left on true, none on false that has an else, and no loop on false |
| AnalyzerCorrect.BranchRemovalExact | semantic_analyzer/semantic_analyzer.c:379-407 | keeping one branch is right for every run if and only if the condition is a literal |
| AnalyzerCorrect.LoopRemovalExact | semantic_analyzer/semantic_analyzer.c:286-297 | dropping a loop is right for every run if and only if its condition is a literal |
| AnalyzerCorrect.StmtPreserved | semantic_analyzer/semantic_analyzer.c:276-425 | every rewritten statement executes like the original: same outcome, store, value and calls |
| AnalyzerCorrect.CallPreserved | semantic_analyzer/semantic_analyzer.c:489-515 | every method of the rewritten program gives what the original gives |
| AnalyzerCorrect.AnalysisCorrect | semantic_analyzer/semantic_analyzer.c:521-557 | the rewritten program is accepted as it stands, keeps headers and types, and every call in it means what it meant |
| AnalyzerExact.ExprAccepted | semantic_analyzer/semantic_analyzer.c:60-268 | an expression is accepted with a type if and only if the type rules give it that type and, optimising, no fold in it traps |
| AnalyzerExact.StmtAccepted | semantic_analyzer/semantic_analyzer.c:276-425 | a statement is accepted if and only if it is well typed, without the branches the optimising pass skips, and no fold traps |
| AnalyzerExact.AcceptedExactly | semantic_analyzer/semantic_analyzer.c:560-568 | a program is accepted if and only if it has a main method, is well typed so, and no fold traps; what comes out is the program with every constant tree replaced by its value and every skipped branch and dead loop gone, or unchanged without optimisation |
| AnalyzerExact.ConstantsFold | semantic_analyzer/semantic_analyzer.c:63-236 | a checked expression is a literal if and only if the expression is a tree of binary operators over literals, and holds what that comes to |
| AnalyzerExact.StmtReduces | semantic_analyzer/semantic_analyzer.c:276-425 | a checked statement is the reduced one, at any depth |
| AnalyzerExact.ConstantIf | semantic_analyzer/semantic_analyzer.c:379-407 | an accepted if on a constant becomes the block of the branch the constant selects; on false without else it stays |
| AnalyzerExact.ConstantWhile | semantic_analyzer/semantic_analyzer.c:286-297 | an accepted loop on false becomes an empty block, on true it stays |
| AnalyzerExact.AcceptedInBothModes | semantic_analyzer/semantic_analyzer.c:112-132 | of the programs accepted without optimisation, optimising accepts exactly those in which no fold traps |
| AnalyzerInPlace.Node.OfBinary | parser.y:236-248 | a new binary node over two disjoint trees stands for the binary expression |
| AnalyzerInPlace.Node.EvalBinary | semantic_analyzer/semantic_analyzer.c:60-249 | evaluating and overwriting the node in place leaves the tree and type the pass specifies |
| AnalyzerInPlace.Node.EvalCall | semantic_analyzer/semantic_analyzer.c:435-483 | the loop over arguments accepts, and rewrites each argument in place, as the pass specifies |
| AnalyzerInPlace.Node.Eval | semantic_analyzer/semantic_analyzer.c:521-556 | the recursive in-place evaluation of any expression tree refines the pass on values |
| AnalyzerInPlace.BlockNode.Eval | semantic_analyzer/semantic_analyzer.c:305-329 | the loop over a block rewrites every statement in place as specified |
| AnalyzerInPlace.StmtNode.EvalIf | semantic_analyzer/semantic_analyzer.c:366-411 | the if-node becomes the block of its live branch, or keeps both branches rewritten |
| AnalyzerInPlace.StmtNode.EvalWhile | semantic_analyzer/semantic_analyzer.c:276-298 | a dead loop becomes an empty block in place |
| AnalyzerInPlace.StmtNode.Eval | semantic_analyzer/semantic_analyzer.c:521-556 | the in-place evaluation of any statement refines the pass on values |
| AnalyzerInPlace.ProgramNode.Eval | semantic_analyzer/semantic_analyzer.c:489-515 | the in-place analysis of all methods accepts and rewrites the program as specified |
| IrGen.Generator.IncreaseTempAp | intermediate_code/intermediate_code.c:50-76 | the use-count list counts one more appearance, in a new entry at the end when the temporary is new |
| IrGen.Generator.Emit | intermediate_code/intermediate_code.c:80-117 | one instruction is appended and exactly its temporaries are counted, in the order var1, var2, reg |
| IrGen.Generator.GenExprCode | intermediate_code/intermediate_code.c:121-371 | the buffer grows by the expression's code; result cell and temporary counter are as specified |
| IrGen.Generator.GenIfCode | intermediate_code/intermediate_code.c:375-395 | the buffer grows by condition, jump, branches and labels, with two new labels |
| IrGen.Generator.GenWhileCode | intermediate_code/intermediate_code.c:399-415 | the buffer grows by the loop's code, with two new labels |
| IrGen.Generator.GenBlockCode | intermediate_code/intermediate_code.c:467-489 | a block's statements in order, cut after a return when optimising |
| IrGen.Generator.GenMethodCode | intermediate_code/intermediate_code.c:419-433 | EXTERN, or ENTER, body, LEAVE |
| IrGen.Generator.GenProgramCode | main.c:153-158 | the buffer holds the program's code and the use-count list is the tally of its temporaries |
| IrLayout.ProgramLabelled | intermediate_code/intermediate_code.c:24-28 | all labels of a program are distinct and every jump has its target |
| IrLayout.LocateMethod | intermediate_code/intermediate_code.c:419-433 | each method's code is found at its ENTER |
| IrGenCorrect.SimExpr | intermediate_code/intermediate_code.c:121-371 | running an expression's code ends right behind it with the expression's value in the result cell, the same variables, the same calls, and older temporaries untouched |
| IrGenCorrect.SimCall | intermediate_code/intermediate_code.c:437-463 | the same for calls, arguments evaluated left to right, recursion included |
| IrGenCorrect.SimStmt | intermediate_code/intermediate_code.c:375-489 | running a statement's code ends behind it with the source store, or returns the source value; nested if, while and blocks included |
| IrGenCorrect.ShiftedDivisionExact | intermediate_code/intermediate_code.c:205-223 | the shift computes the division for every dividend and store if and only if the divisor is a literal |
| IrGenCorrect.ShiftEmitted | intermediate_code/intermediate_code.c:205-223 | a binary node ends in a shift if and only if it is an optimised division whose divisor is a leaf reading as a power of two, and the shift count is its exponent; else in its own operator |
| IrGenCorrect.LiteralStored | intermediate_code/intermediate_code.c:337-357 | a literal is stored directly, using no temporary, by optimised assignments of one and by no declaration or other assignment |
| IrGenCorrect.BlockInParts | intermediate_code/intermediate_code.c:467-489 | the code of a block is the code of its parts in order, unless an optimised return stands in the first part |
| IrGenCorrect.CutAfterReturn | intermediate_code/intermediate_code.c:467-489 | what follows a return in its block leaves no trace in optimised code |
| IrGenCorrect.LoadsEmitted | intermediate_code/intermediate_code.c:149-161 | an expression loads each identifier in it once, left to right, shift divisors and an assigned identifier excepted |
| IrGenCorrect.TranslationCorrect | intermediate_code/intermediate_code.c:121-489 | a terminating source call halts in the three-address machine with the same value and calls |
| IrGenExact.FailStmt | intermediate_code/intermediate_code.c:375-489 | the code of a statement whose execution fails with n units of fuel does not halt within n steps |
| IrGenExact.TranslationExact | intermediate_code/intermediate_code.c:121-489 | a source call terminates with a value and calls if and only if its code halts with them |
| CodeSize.ProgramCodeSize | intermediate_code/intermediate_code.c:80-117 | a program takes exactly as many instructions as a recursion over its tree says, so this is what the buffer must hold |
| CodeSize.OptimisedNotLonger | intermediate_code/intermediate_code.c:121-489 | the optimised translation of the reduced program is never longer than the plain translation |
| TempFlow.ExprFlow | intermediate_code/intermediate_code.c:121-463 | an expression's code defines its temporaries in index order, reads each at most once after its definition, and leaves only its result unread |
| TempFlow.ProgramFlow | intermediate_code/intermediate_code.c:121-489 | the acceptor of that discipline accepts every translated program |
| TempPositions.SingleUses | intermediate_code/intermediate_code.c:16-20 | in accepted code a temporary has exactly one defining position and at most one reading operand, which comes later with no label, jump, return or method boundary in between |
| TempPositions.DefinedInOrder | intermediate_code/intermediate_code.c:16-20 | definitions come in index order |
| TempPositions.TemporaryDiscipline | intermediate_code/intermediate_code.c:121-489 | both for every temporary of every translated program, and no other temporary is mentioned |
| Optimizer.TallyInOrder | intermediate_code/intermediate_code.c:50-76 | the use-count list has one entry per temporary in index order, holding its number of occurrences |
| Optimizer.VisitFacts | intermediate_code/optimization.c:79-92 | an unlocked entry met in the code is at its temporary's first occurrence |
| Optimizer.TempList.constructor | intermediate_code/intermediate_code.c:50-76 | the entries as the generator leaves them: counts, unlocked, each listing its own name cells |
| Optimizer.TempList.GetFree | intermediate_code/optimization.c:31-43 | the first entry before the given one with no uses left |
| Optimizer.TempList.GetTemp | intermediate_code/optimization.c:48-57 | the entry of a name |
| Optimizer.TempList.SwapTemps | intermediate_code/optimization.c:61-74 | counts, locks and location lists move, and exactly the cells listed are renamed |
| Optimizer.TempList.CheckOptimize | intermediate_code/optimization.c:79-92 | one occurrence advances the pass by one specified step |
| Optimizer.TempList.OptimizeMemory | intermediate_code/optimization.c:10-23 | at the end each cell holds the final name of its temporary |
| TempReuse.ReuseInv | intermediate_code/optimization.c:61-92 | at every point of the pass an entry's count is the number of remaining occurrences of its name, and temporaries sharing a name do not overlap |
| TempReuse.ReuseIsSound | intermediate_code/optimization.c:10-92 | two temporaries that end with one name never overlap |
| ReuseOptimal.RenamedOnce | intermediate_code/optimization.c:61-92 | a temporary is not renamed again after its first occurrence |
| ReuseOptimal.FinalNameLow | intermediate_code/optimization.c:25-43 | the final name is not above the temporary's own index and is below the peak of simultaneously live temporaries |
| ReuseOptimal.ReuseIsOptimal | intermediate_code/optimization.c:10-92 | the names used are exactly those below the peak, and no renaming that keeps overlapping temporaries apart uses fewer |
| TempNeed.ExprNeeds | intermediate_code/intermediate_code.c:121-371 | the most temporaries in use while an expression is computed is its recursively defined need |
| TempNeed.ReuseUsesNeed | intermediate_code/optimization.c:10-92 | after reuse a program uses exactly as many names as the largest need of one of its expressions, however many statements it has |
| CodeNames.TranslatedNames | intermediate_code/intermediate_code.c:80-117 | a program's code mentions exactly the temporaries below its final counter |
| CodeNames.ReusedNames | intermediate_code/optimization.c:10-23 | the code after the pass mentions exactly the temporaries below the largest need of an expression |
| ReuseCorrect.Lockstep | intermediate_code/optimization.c:10-92 | one step of original and renamed code keeps them matched, or neither steps, for every instruction |
| ReuseCorrect.RenamingCorrect | intermediate_code/optimization.c:10-92 | original and renamed program halt with the same value and calls, each if and only if the other does, across loops and recursion |
| ReuseCorrect.ReusedFits | intermediate_code/optimization.c:10-92 | the optimiser's renaming is one of those |
| X86.SetDecides | object_code/object_code.c:259-277 | after cmp the six set instructions decide the six comparisons for all 64-bit operands |
| Lowering.RegisterTable | object_code/object_code.c:10-11 | the generator's table has the calling convention's six argument registers in its order, and no more |
| XRuns.RunBinary | object_code/object_code.c:198-277 | the code of every binary operator stores the operator's value and changes no other cell, rbp or rsp |
| XRuns.RunDivide | object_code/object_code.c:212-222 | cqto and idiv store the truncated quotient or remainder |
| XRuns.RunShift | object_code/object_code.c:224-239 | the shift sequence stores the shifted division |
| XRuns.RunNot | object_code/object_code.c:249-257 | test, sete, movzbq store the logical negation as 0 or 1 |
| XRuns.RunJumpIfZero | object_code/object_code.c:288-294 | falls through if and only if the cell is not zero |
| ObjectCode.ObjectGenerator.GetVarOffset | object_code/object_code.c:17-28 | a known name keeps its slot, a new one gets the next 8 bytes |
| ObjectCode.ObjectGenerator.SizeFrame | object_code/object_code.c:88-116 | the first pass counts each distinct text once and rounds up to 16 |
| ObjectCode.ObjectGenerator.MoveArguments | object_code/object_code.c:124-144 | parameters get the first slots and the moves that fill them |
| ObjectCode.ObjectGenerator.EnclosingMethod | object_code/object_code.c:162-172 | the backward search finds the method a return belongs to |
| ObjectCode.ObjectGenerator.EmitEnter | object_code/object_code.c:76-146 | prologue with the frame size and the argument moves |
| ObjectCode.ObjectGenerator.EmitParam | object_code/object_code.c:296-308 | the six registers in order, then pushes, both counters kept |
| ObjectCode.ObjectGenerator.EmitCall | object_code/object_code.c:310-323 | call, result, stack arguments dropped, counters reset |
| ObjectCode.ObjectGenerator.GenerateObjectCode | object_code/object_code.c:59-332 | the loop with its growing table emits exactly the specified assembly |
| Frames.SlotsApart | object_code/object_code.c:17-28 | distinct names have slots at least 8 bytes apart, all below rbp and inside the table's size |
| Frames.OperandSlot | object_code/object_code.c:17-28 | an operand has, when its instruction is lowered, the slot it keeps to the end of the method |
| Frames.FrameFitsExactly | object_code/object_code.c:88-122 | every slot lies in the reserved space if and only if there are no more distinct parameters and operands than it holds |
| FrameExact.ReservedExactly | object_code/object_code.c:99-116 | the frame reserves 8 bytes for each distinct text among the method's name, the names it calls, its operands and negative literals, rounded up to 16 |
| FrameExact.SlotsExactly | object_code/object_code.c:17-28 | the slot table ends with exactly the parameters and the cells read or written, each once |
| FrameExact.FitsByTexts | object_code/object_code.c:88-116 | every slot lies in that space if and only if the unmentioned parameters are no more than the counted texts without a slot, plus one when the count is odd |
| Frames.MentionedFits | object_code/object_code.c:99-116 | when every parameter is mentioned, every slot of the second pass lies in the space of the first |
| Frames.UnmentionedOverflows | object_code/object_code.c:99-132 | a method with three unmentioned parameters whose slots exceed its frame |
| Frames.FindLabel | object_code/object_code.c:278-287 | a label of the assembly is found at the address of the instruction that carries it |
| LoweringCorrect.EnterRuns | object_code/object_code.c:117-144 | from a call to the first instruction: frame laid out, every parameter's slot holds its argument, caller's memory kept |
| LoweringCorrect.LeaveRuns | object_code/object_code.c:148-160 | the epilogue returns to the caller's frame, with the result in its cell and the stack pointer restored |
| LoweringCorrect.ArgumentsReceived | object_code/object_code.c:296-308 | for any number of arguments, the order in which the calling convention reads what the PARAM run set |
| LoweringCorrect.ReceivedExactly | object_code/object_code.c:133-139 | all argument lists of a length arrive in order if and only if the length is at most seven |
| LoweringCorrect.SimulateStep | object_code/object_code.c:59-332 | every step of the three-address machine is simulated by its assembly, ENTER, LEAVE, RET, internal and extern calls included; a call needs its arguments read in the order given and, if it leaves the program, an aligned stack |
| LoweringCorrect.LoweringPreservesMeaning | object_code/object_code.c:59-332 | a method called under the calling convention, whose calls go through, returns the same value, has made the same calls, and leaves rbp, rsp and the caller's memory as they were |
| LoweringCorrect.CallsAligned | object_code/object_code.c:111-116 | at every call reached rsp is a multiple of 16 if and only if the number of arguments on the stack is even, given an aligned start |
| Alignment.AlignedExactly | object_code/object_code.c:301-322 | all calls of a run are aligned if and only if none has an odd number of arguments on the stack |
| Alignment.AlignedByEvents | object_code/object_code.c:301-322 | the same for a run that ends, told from the calls it records |
| Alignment.EasyArrive | object_code/object_code.c:296-323 | calls go through when none has more than seven arguments, and either none has seven and the start is aligned or none leaves the program |
| LoweringExact.ReturnsOnlyIfHalted | object_code/object_code.c:59-332 | when a method's assembly comes back to its return address, its three-address code halts with the value returned and the calls made, and every call went through |
| Mentions.UsedParamsFit | object_code/object_code.c:99-116 | a method whose translated statements mention all its parameters has a frame that holds its slots, renamed or not |
| GeneratedShape.ProgramClosed | intermediate_code/intermediate_code.c:375-433 | a program's code is a row of methods with one ENTER and LEAVE each, and every jump stays between its own |
| GeneratedShape.DisciplinedRuns | intermediate_code/intermediate_code.c:448-459 | every CALL directly follows exactly its own PARAM run |
| GeneratedShape.RenamedShape | intermediate_code/optimization.c:10-23 | renaming temporaries keeps all of that |
| EndToEnd.IntermediateNames | main.c:153-163 | the code handed on mentions exactly the temporaries below the program's need with optimisations on, and all generated ones with them off |
| EndToEnd.CompiledExactly | main.c:145-163 | what is compiled is exactly every well typed program with a main method and, optimising, no trapping fold, as the code of the reduced program |
| EndToEnd.ModesAgree | main.c:150-163 | with optimisations on or off, the intermediate code of an accepted program halts with a value and calls if and only if the source terminates with them |
| EndToEnd.OptimisedCodeNotLonger | main.c:145-163 | the intermediate code of an accepted program is never longer with optimisations on than with them off |
| EndToEnd.CompilerCorrect | main.c:145-163 | for every accepted program and either mode, the assembly of a terminating method does what the source does, provided frames hold their slots and calls go through |
| EndToEnd.CompilerExact | main.c:145-163 | when the assembly comes back to its caller, the source call terminates with that value and those calls and every call went through, for runs that use no undefined value and whose arguments are read in order |
| EndToEnd.EasyProgramsCorrect | main.c:145-163 | the same as the first under conditions on the source and its calls: parameters mentioned, calls easy |
| EndToEnd.GenerateCode | main.c:153-163 | generator, optimiser and object code generator, run one after the other, emit the compiled assembly |
| EndToEnd.GenerateIntermediate | main.c:153-163 | generator and, with optimisations on, optimiser leave the intermediate code, which then mentions exactly the temporaries the program needs |
| EndToEnd.GeneratorApplies | object_code/object_code.c:59-332 | the intermediate code of every program meets what the object code generator relies on |
| Witnesses.FrameOverflows | object_code/object_code.c:99-132 | an accepted method that mentions none of its three parameters, whose frame does not hold its slots |
| Witnesses.SharedCell | object_code/object_code.c:17-28 | an accepted boolean method that returns 2 |
| Witnesses.UncheckedBranch | semantic_analyzer/semantic_analyzer.c:379-407 | a program accepted with optimisations and rejected without |
| Witnesses.MisalignedCall | object_code/object_code.c:301-322 | an accepted, terminating program whose assembly comes to a call without arguments with a misaligned stack |
| Scopes.Parser.PushScope | symbol_table/symbol_table.c:31-35 | a new empty scope on top |
| Scopes.Parser.PopScope | symbol_table/symbol_table.c:39-44 | the top scope is dropped, the global one never |
| Scopes.Parser.FindIn | symbol_table/symbol_table.c:160-170 | the search of one table finds a name if and only if it is there |
| Scopes.Parser.Find | symbol_table/symbol_table.c:140-155 | the nested search returns the innermost level that declares the name |
| Scopes.Parser.AddId | symbol_table/symbol_table.c:49-71 | a name is added to the current scope if and only if it is new there |
| Scopes.Parser.OpenBlock | parser.y:166-174 | the flags decide whether the brace opens a scope |
| Scopes.Parser.CloseBlock | parser.y:191-195 | the last flag decides whether the brace closes one |
| Scopes.Parser.EndMethod | parser.y:102-136 | the method is recorded globally with the scope that is current, then a scope is popped |
| Scopes.Parser.Program | parser.y:53-61 | the parser's actions over a whole program |
| Scopes.BodyScopes | parser.y:166-195 | for arbitrarily nested blocks: every name is accepted or rejected, and every identifier found in the same scope and at the same depth, as under lexical scoping; surrounding scopes restored |
| Scopes.DeclScopes | parser.y:102-145 | the same for every declaration whatever the flags were left at, ending in the global scope; the clash of a method with its own names is the parser's rule in the reference too, see `OwnNameClash` |
| Scopes.ParserScopesLexically | parser.y:53-195 | the same for whole programs |
| Scopes.RecordedExactly | parser.y:102-136 | the recorded scope is the method's own if and only if its body has no nested block |
| Scopes.OwnNameClash | symbol_table/symbol_table.c:101-104 | a method named like its own parameter or variable is an error if and only if its body has no nested block |

## Left out

- Lexing, parsing of text, the printers, files, linking and error messages: the tree is the input, the
  assembly a datatype, an error exit a failure result.
- Global variables: each method gives them a slot of its own and their initialisers stand outside any
  function; programs here are lists of methods.
- Lexical shadowing in generated code: names share one cell per method, so the meaning used for the
  translation has one variable per name; scoping itself is in `Scopes`.
- `AnalyzerExact.AcceptedExactly`: does not model the missing-return check and `returned_global`: the check reads
  a result that may be unset.
- `TypeSoundness.StmtSound`: does not admit a name with two types in one method; that is a condition of
  the program (`OneTypePerName`), since such names share a cell (`SharedCell`). A void initialiser leaves
  its variable absent.
- `EndToEnd.CompilerCorrect`: does not cover runs with a call whose arguments are read in another order than
  given or an extern call on a misaligned stack, where the code is wrong (`ReceivedExactly`,
  `MisalignedCall`); nor frames that do not hold their slots, where it may be (`FrameFitsExactly`); nor
  optimised identifiers where a literal is expected, nor folds that overflow.
- `EndToEnd.CompilerExact`: says nothing of runs that use an undefined value: the source has no meaning
  there, and the assembly goes on with whatever a stack cell holds.
- `AnalyzerInPlace.StmtNode.Eval`: says nothing about the half-rewritten tree after an error exit, which
  ends the compiler.
- LOAD instructions of identifiers directly under an assignment are left out as in the code; under other
  parents one is always generated, although the code looks at a member of the parent that only operator
  nodes have. LOAD lowers to nothing.
- Extern methods are one function from the calls made so far to an answer; the library's own code is not
  part of this model. An extern call made with rsp a multiple of 16 is assumed to keep rbp, rsp and the
  caller's memory, as the calling convention requires; made otherwise it has no meaning.
- Runs that do not end: a source run that does not end corresponds to code that does not halt; the calls
  such a run makes are not compared.
- Fixed capacities (instruction buffer, slots per method, name lengths), allocation and freeing, and the
  finite size of the machine stack: sequences and addresses are unbounded. What a program needs of the first
  two is `ProgramCodeSize`, and `CountedTexts` and `SlotTexts` in `FrameExact`.
- The text of names: temporaries, labels and operands are datatype values; the slot table's text keys keep
  which texts coincide.
- The trees under `AnalyzerInPlace` share no nodes, as the parser builds them; parent pointers and line
  numbers are left out.
