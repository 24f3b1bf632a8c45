# Code generation of a toy C-like compiler, modelled in Dafny

The compiler parses a small language of `long` and `void` functions into an AST
(`node.h`) and lowers it to LLVM IR (`codegen.cpp`). This project models the
lowering. Each AST node's `codeGen` is a function of the generator state. The
model proves what that lowering produces, in which order, and when it fails.

The modules:

- `Ast` holds the node classes of `node.h` as datatypes and their constructors
  as functions. An if whose `_else` pointer is the very node `_then` points to
  is the source's "no else" case. It is an else-block of `None`, and
  `IfOfSharedBlock` is the only constructor that yields it.
- `Ir` is a small abstract IR: types, values, instructions, basic blocks and
  functions.
  - Blocks live in one arena and are named by their creation index.
  - A terminator is appended to a block's instruction list like any other
    instruction, so a block can hold none or several. `WellTerminated` says
    when it holds exactly one, in last position.
  - `GetFunction` is the module's lookup by name.
- `Context` holds the generator state: blocks, functions, the frame stack and
  the return-value cell.
  - The header `codegen.h` is not part of this model. The stack operations
    the lowering relies on are written out here as explicit definitions.
  - `getVar` looks in the innermost frame first.
  - `removeBlock(b)` pops frames up to and including the topmost frame for `b`.
  - `locals()[name]` inserts a null binding when the name is missing.
  - The return value is one cell of the whole context, null at the start.
    `pushBlock`, `popBlock` and `removeBlock` neither save nor reset it.
  - `Grows` is the relation every lowering step keeps: blocks and functions
    are only added, the frames below the top one stay, and only the current
    block gets instructions appended.
- `Lowering` gives the meaning of every `codeGen` as a ghost function from a
  state to `Done(state, value)` or `Fail(error)`.
  - These fatal paths of the source are a `Fail`:
    - an `exit(1)` after an undefined type, an undeclared variable or an
      unknown operator;
    - the dereference of a null function, when a call names a function the
      module does not have, or when an if or while starts in a block outside
      any function;
    - the null value of an empty block, used as an expression, given to an
      arithmetic instruction, a store or the comparison of an if or while
      condition. Each of these reads its operand's type or inspects it.
  - C++ leaves unspecified the order in which the two operands of
    `BinaryOperator::Create` are evaluated (codegen.cpp:121-122). It likewise
    leaves unspecified whether the value of an assignment is lowered before
    or after `currentBlock()` is read (codegen.cpp:134). The model fixes one
    order as a choice of its own: operands and arguments left to right, and
    the current block read after them, when the instruction is created.
  - `CreateICmpNE` against `i64 0` folds to an `i1` constant when its operand
    is an integer constant, as the IR builder does. Otherwise it appends an
    `icmp ne`.
- `CodeGen` holds the class `CodeGenContext`. It has the generator's fields,
  and one method per `codeGen`, updating those fields in place. Each method is
  proved to reach the state, and return the value or error, that `Lowering`
  gives.
  - The core functions the module starts with (createCoreFunctions) are a
    constructor parameter.
- `Invariants` proves that every lowering step is a `Grows` of the state it
  starts from.
- `Properties` gives a reference definition for block-free expressions:
  `Flatten` lists the exact instructions and the value. It proves that the
  lowering agrees with it.
- `Statements` covers the statement lowerings: blocks, declarations, returns,
  and straight-line code staying in its block.
- `Shapes` and `ControlFlow` describe the block layout an if or a while
  produces, and prove that the lowering produces it.
- `Joins` proves the edges into the join blocks for arbitrary branch and loop
  bodies.
- `Functions` proves what function declarations and the whole program produce,
  including the parameter loop.

Several behaviours of the source are proved as stated, without correction:

- A call to an unknown function is only reported at first, and its
  arguments are still lowered. Creating the call then dereferences the null
  function. An error in an argument comes first (`UnknownCalleeFails`).
- Declaring a name twice in one frame replaces the first slot
  (`RedeclarationOverwrites`).
- The `br` to ifcont is appended to the then block itself, and the back edge
  to the loop block itself. This holds even when the branch or body moved on
  to blocks of its own (`IfJoins`, `WhileJoins`).
- Two terminators can come out of one if: a then-branch that is a lone
  nested if leaves the outer then block with two of them
  (`IfInThenBranchDoublyTerminated`).
- The loop block joins its function only after the body is lowered. So an if
  or a while in a loop body, after straight-line code, always fails
  (`ControlInLoopBodyFails`).
- The frames pushed for ifcont and whilecont are never popped. Only the
  enclosing function's `removeBlock` drops them.
- Given the single return-value cell that `Context` assumes, nothing in the
  lowering resets it. So a function without a `return` returns whatever the
  previous function left there (`ReturnCellIsNotReset`).

## Model

| member | source | states |
|---|---|---|
| Ast.MethodCallWith | node.h:51-52 | the call node keeps the callee name and every argument, in order |
| Ast.MethodCallOf | node.h:53 | the one-argument constructor yields a call with an empty argument list |
| Ast.DeclarationOf | node.h:104-105 | the two-argument declaration has the given type and name and no initializer |
| Ast.DeclarationWith | node.h:106-107 | the three-argument declaration keeps its initializer; a null pointer means none |
| Ast.IfOfStatements | node.h:131-140 | each branch statement is wrapped into its own one-statement block, and there is an else |
| Ast.IfOfBlockAndStatement | node.h:142-148 | the then-block is kept and the else-statement wrapped into a block |
| Ast.IfOfStatementAndBlock | node.h:150-155 | the then-statement is wrapped and the else-block kept |
| Ast.IfOfBlocks | node.h:157-158 | two distinct block nodes give an if with both branches |
| Ast.IfOfSharedBlock | node.h:157-158 | one block node passed for both branches gives an if with no else |
| Ast.WhileOfBlock | node.h:180-181 | the block given is the loop body |
| Ast.WhileOfStatement | node.h:183-188 | the statement is wrapped into a one-statement body |
| Ir.GetFunction | codegen.cpp:90 | the result is the first function with the name, and None exactly when no function has it |
| Lowering.TypeOf | codegen.cpp:45-60 | `long` gives i64 and `void` gives void; every other name is an undefined-type error naming it |
| Lowering.TypeOfAll | codegen.cpp:177-182 | succeeds exactly when every parameter type is known, giving each type in order; otherwise the error is that of the first unknown type |
| Lowering.ArithOf | codegen.cpp:107-117 | each arithmetic token maps to its own instruction, and exactly the other tokens have none |
| Lowering.CompareNonZero | codegen.cpp:211-213 | a constant operand folds to an i1 constant telling whether it is non-zero, and nothing is emitted; any other operand gets one `icmp ne` appended to the block |
| Context.GetVarInnermost | codegen.cpp:76-86 | a name is read from the innermost frame that binds it |
| Context.GetVarUnbound | codegen.cpp:79-84 | a name no frame binds reads as null, the undeclared-variable case |
| Context.RemoveBlockStopsAt | codegen.cpp:201 | removeBlock leaves exactly the frames below the topmost frame for the block |
| Context.LeaveFunction | codegen.cpp:186-201 | after a function's body, removeBlock of its entry block restores the caller's frames; older blocks are unchanged and the state still grows the caller's |
| Invariants.ExprGrows | codegen.cpp:64-135 | lowering any expression only adds blocks and functions, keeps every frame below the top one and the top frame's block, and changes no existing block except by appending to the current one |
| Invariants.BlockGrows | codegen.cpp:137-147 | the same growth for a block of statements |
| Invariants.StmtGrows | codegen.cpp:149-204 | the same growth for any statement, nested ifs, whiles and function declarations included |
| Invariants.ParametersGrows | codegen.cpp:191-197 | the parameter loop, run with the entry block current, grows the state |
| Invariants.FunctionDeclarationGrows | codegen.cpp:175-204 | a function declaration, with its parameters and body, grows the state |
| Invariants.IfGrows | codegen.cpp:206-248 | an if grows the state, for any condition and branches |
| Invariants.WhileGrows | codegen.cpp:250-287 | a while grows the state, for any condition and body |
| Invariants.ProgramKeepsFrames | codegen.cpp:13-23 | generateCode leaves the frame stack it started with, keeps every older block, and adds `main` after the functions already there |
| Properties.FlatLowering | codegen.cpp:64-135 | a block-free expression lowers to exactly the instructions and value of the reference definition, or fails with its error |
| Properties.FlatCallLowering | codegen.cpp:88-102 | a call appends its arguments' code in order and then one call instruction on their values to the named function; a function missing from the module fails once the arguments are lowered |
| Properties.FlatBinaryLowering | codegen.cpp:104-123 | an arithmetic operator appends the left then the right operand's code and one instruction; any other operator fails before an operand is lowered |
| Properties.FlatAssignmentLowering | codegen.cpp:125-135 | an assignment fails on an undeclared target before its value is lowered; otherwise it appends the value's code and a store |
| Properties.FlatArgsLowering | codegen.cpp:94-98 | the arguments are lowered first to last, and the first failing argument decides the error |
| Properties.UnknownCalleeFails | codegen.cpp:90-99 | for any arguments, a callee missing from the module fails the call once the arguments are lowered, and an argument's error comes first |
| Properties.FlattenNotNull | codegen.cpp:64-135 | a block-free expression never yields null, so no operand check fails on it |
| Properties.FlattenPlain | codegen.cpp:64-135 | a block-free expression emits no terminator |
| Properties.FlattenEmptyTop | codegen.cpp:266-267 | an empty frame pushed on top does not change what a block-free expression lowers to |
| Properties.StatementsPrefixFails | codegen.cpp:141-144 | a failure in a prefix of a statement list is the failure of the whole list |
| Properties.ArgumentsPrefixFails | codegen.cpp:96-98 | a failure in a prefix of the arguments is the failure of the whole call's arguments |
| Properties.TypeOfAllPrefixFails | codegen.cpp:179-181 | an unknown type in a prefix of the parameters decides the error of the whole list |
| Properties.ParametersPrefixFails | codegen.cpp:191-197 | a failing prefix of the parameter loop is the failure of the whole loop |
| Statements.BlockInListOrder | codegen.cpp:137-147 | a block lowers its statements one after another from the state each leaves; its value is the last one's, or null for no statement |
| Statements.StatementsAppend | codegen.cpp:141-144 | lowering `p + q` is lowering `p` and then `q` from the state `p` leaves |
| Statements.OneStatementBlock | node.h:133-134 | a one-statement block lowers exactly as its statement |
| Statements.NullLeftOperandFails | codegen.cpp:120-122 | with an empty block on the left, the right operand is still lowered; its error comes first, and otherwise the operator fails on the null operand |
| Statements.NullStoreFails | codegen.cpp:134 | assigning an empty block to a declared variable fails on the null value |
| Statements.NullIfConditionFails | codegen.cpp:209-213 | an if whose condition is an empty block fails at the comparison |
| Statements.NullWhileConditionFails | codegen.cpp:267-270 | a while whose condition is an empty block fails at the comparison |
| Statements.Declared | codegen.cpp:166-167 | after the alloca the name reads as the new slot and every other name reads as before |
| Statements.DeclarationLowering | codegen.cpp:163-173 | an unknown type fails; otherwise an alloca is appended and bound in the top frame, then the initializer is lowered and stored into it; the value is the slot |
| Statements.RedeclarationOverwrites | codegen.cpp:166-167 | two declarations of one name give two allocas, and the name then reads as the second slot |
| Statements.ReturnLowering | codegen.cpp:155-161 | a return appends its expression's code, puts its value into the return-value cell and yields it |
| Statements.StraightStaysInBlock | codegen.cpp:141-144 | straight-line statements create no block, push no frame and append no terminator |
| ControlFlow.CompareAppends | codegen.cpp:213 | the comparison changes only its own block, by appending its code to it |
| ControlFlow.IfConditionFails | codegen.cpp:209 | a failing condition fails the if with the condition's error |
| ControlFlow.IfOutsideFunctionFails | codegen.cpp:215-231 | an if in a block that belongs to no function fails |
| ControlFlow.IfSteps | codegen.cpp:209-247 | an if is its condition, then the then-branch under a frame for the then block, then the else and the join |
| ControlFlow.IfEntryShape | codegen.cpp:211-224 | the current block gets the condition's comparison and a conditional branch to the new then and else blocks; the then block joins the function, and else and ifcont start empty and outside it |
| ControlFlow.ThenShape | codegen.cpp:224-226 | straight-line then-code lands in the then block only |
| ControlFlow.ThenExitShape | codegen.cpp:228-231 | after the then-branch the then block ends in its one branch to ifcont, and else joins the function |
| ControlFlow.ElseShape | codegen.cpp:234-238 | straight-line else-code lands in the else block only, and nothing is added when there is no else |
| ControlFlow.JoinShape | codegen.cpp:240-245 | the else block ends in its one branch to ifcont, and ifcont joins the function and becomes current |
| ControlFlow.ElseAndJoinShape | codegen.cpp:228-247 | the part after the then-branch gives the full if layout |
| ControlFlow.IfInFunction | codegen.cpp:206-248 | an if with straight branches in a function gives exactly three new blocks, then, else and ifcont, each well terminated or empty as the layout says; the value is the function |
| ControlFlow.IfStraight | codegen.cpp:206-248 | a successful if with straight branches had a good condition, started inside a function, and has that layout |
| ControlFlow.WhileOutsideFunctionFails | codegen.cpp:256-281 | a while in a block that belongs to no function fails |
| ControlFlow.WhileEntryShape | codegen.cpp:254-266 | the current block ends with a branch to the new loopCond block, a frame for loopCond is pushed, and loop and whilecont start empty and outside the function |
| ControlFlow.WhileCondition | codegen.cpp:266-268 | the condition lowers into loopCond |
| ControlFlow.WhileConditionFails | codegen.cpp:267 | a failing condition fails the while with its error |
| ControlFlow.LoopEntryShape | codegen.cpp:270-274 | loopCond gets the comparison and a conditional branch to loop and whilecont, and a frame for loop is pushed |
| ControlFlow.WhileExitShape | codegen.cpp:276-284 | loop ends in its one back edge, and loop and whilecont join the function, whilecont becoming current |
| ControlFlow.WhileSteps | codegen.cpp:250-287 | a while is its entry, the condition, the body under a frame for loop, and the exit |
| ControlFlow.LoopBodyRound | codegen.cpp:274-276 | a straight body lands in the loop block only |
| ControlFlow.WhileInFunction | codegen.cpp:250-287 | a while with a straight body in a function gives exactly three new blocks, loopCond, loop and whilecont, in the loop layout; the value is the function |
| ControlFlow.WhileStraight | codegen.cpp:250-287 | a successful while with a straight body had a good condition, started inside a function, and has that layout |
| ControlFlow.LoopEntryOrphan | codegen.cpp:260 | the loop block belongs to no function while its body is lowered |
| ControlFlow.OrphanStmtFails | codegen.cpp:215 | an if or while started in a block of no function fails |
| ControlFlow.OrphanBlockFails | codegen.cpp:141-144 | straight statements followed by an if or while, in a block of no function, fail |
| ControlFlow.ControlInLoopBodyFails | codegen.cpp:274-279 | an if or while after straight statements in a loop body fails the whole while |
| Joins.IfJoins | codegen.cpp:206-245 | for any condition and branches, a successful if leaves a conditional branch from the block the condition ended in, then and else each ending in a branch to ifcont, and ifcont empty and current |
| Joins.BranchesJoin | codegen.cpp:211-245 | the same layout from the state after the condition |
| Joins.ThenRound | codegen.cpp:224-226 | after any then-branch, popping its frame leaves the conditional branch and else and ifcont as they were created |
| Joins.ElseAndJoinRound | codegen.cpp:228-245 | after any else-branch the join layout holds, and the then block only gained its branch to ifcont |
| Joins.IfClosesItsBlock | codegen.cpp:213-222 | an if with a block-free condition ends the block it started in with its conditional branch |
| Joins.IfInThenBranchDoublyTerminated | codegen.cpp:222-229 | when the then-branch is a lone if, the outer then block ends up with two terminators and is not well terminated |
| Joins.WhileJoins | codegen.cpp:250-284 | for any condition and body, a successful while leaves a branch to loopCond, loopCond ending in the test, loop ending in the back edge, and whilecont empty and current |
| Joins.ConditionRound | codegen.cpp:266-268 | after any condition, popping its frame leaves loopCond's entry edge and loop and whilecont as they were created |
| Joins.BodyRound | codegen.cpp:270-276 | after any body, loopCond ends in its conditional branch and the loop block is otherwise as before |
| Joins.ExitJoins | codegen.cpp:277-284 | the back edge and the joins complete the loop layout |
| Functions.ParamCode | codegen.cpp:191-197 | each parameter contributes two instructions, its alloca and the store of its incoming argument into that slot |
| Functions.ParamBindings | codegen.cpp:192 | the parameter loop binds exactly the parameters' names |
| Functions.ParamBindingsLast | codegen.cpp:192-196 | a parameter name binds the slot of its last occurrence |
| Functions.EnteredStep | codegen.cpp:192-196 | one more parameter is one alloca, one binding and one store, in that order |
| Functions.ParametersLowering | codegen.cpp:191-197 | the parameter loop fails on the first unknown type; otherwise it leaves the entry block with each parameter's code, and the top frame with its bindings |
| Functions.FunctionCloses | codegen.cpp:198-201 | the `ret` of the return-value cell lands in the block current after the body, and removeBlock restores the caller's frames |
| Functions.FunctionDeclarationLowering | codegen.cpp:175-204 | parameter types are checked first, then the return type; a good declaration adds an internal function with its entry block and body and ends in a `ret`; the value is the function |
| Functions.ReturnCellIsNotReset | codegen.cpp:198-199 | a function with an empty body returns the cell's previous value |
| Functions.ProgramLowering | codegen.cpp:13-23 | generateCode adds an external `main` with an entry block, lowers the root block into it and ends with `ret i32 0` in the block current at the end; a failing root fails the program |
| CodeGen.CodeGenContext.GenerateCode | codegen.cpp:8-23 | the object ends in the state of the program lowering, or reports its error |
| CodeGen.CodeGenContext.CodeGenExpr | codegen.cpp:64-68 | the object ends in the state of the expression lowering and returns its value, or reports its error |
| CodeGen.CodeGenContext.CodeGenIdentifier | codegen.cpp:76-86 | the same, for an identifier: a load of its slot, or undeclared-variable |
| CodeGen.CodeGenContext.CodeGenMethodCall | codegen.cpp:88-102 | the same, for a call, whose argument loop is proved by its invariant |
| CodeGen.CodeGenContext.CodeGenBinaryOperator | codegen.cpp:104-123 | the same, for a binary operator |
| CodeGen.CodeGenContext.CodeGenAssignment | codegen.cpp:125-135 | the same, for an assignment |
| CodeGen.CodeGenContext.CodeGenBlock | codegen.cpp:137-147 | the same, for a block, whose statement loop is proved by its invariant |
| CodeGen.CodeGenContext.CodeGenStmt | codegen.cpp:149-153 | the same, for any statement |
| CodeGen.CodeGenContext.CodeGenReturn | codegen.cpp:155-161 | the same, for a return, setting the return-value cell |
| CodeGen.CodeGenContext.CodeGenVariableDeclaration | codegen.cpp:163-173 | the same, for a declaration |
| CodeGen.CodeGenContext.ParameterTypes | codegen.cpp:177-181 | the type loop yields the types of the parameter list, or its first error |
| CodeGen.CodeGenContext.CodeGenFunctionDeclaration | codegen.cpp:175-204 | the same, for a function declaration |
| CodeGen.CodeGenContext.CodeGenParameters | codegen.cpp:191-197 | the parameter loop reaches the state of the parameter lowering |
| CodeGen.CodeGenContext.CodeGenIf | codegen.cpp:206-209 | the same, for an if |
| CodeGen.CodeGenContext.OpenIf | codegen.cpp:211-224 | the comparison, the three blocks, the conditional branch and the then frame, with the function of the current block |
| CodeGen.CodeGenContext.CodeGenBranches | codegen.cpp:224-231 | the if after its condition |
| CodeGen.CodeGenContext.CodeGenElseAndJoin | codegen.cpp:226-247 | the if after its then-branch |
| CodeGen.CodeGenContext.CodeGenWhile | codegen.cpp:250-267 | the same, for a while |
| CodeGen.CodeGenContext.CodeGenLoopBody | codegen.cpp:268-286 | the while after its condition |
| CodeGen.CodeGenContext.CompareWithZero | codegen.cpp:213 | the comparison with zero, folded or appended |
| CodeGen.CodeGenContext.BindLocal | codegen.cpp:167 | `locals()[name] = v` rebinds the name in the top frame only |
| CodeGen.CodeGenContext.ReadLocal | codegen.cpp:196 | reading `locals()[name]` yields the binding, and inserts a null one for a missing name |
| CodeGen.CodeGenContext.CreateBlock | codegen.cpp:218-220 | a new block gets the next index |
| CodeGen.CodeGenContext.InsertInto | codegen.cpp:231 | the block joins the function and nothing else changes |
| CodeGen.CodeGenContext.CreateFunction | codegen.cpp:183 | a new function gets the next index |

## Left out

- NDouble (codegen.cpp:70-74): floating point is out of scope, and the `double` type line of `typeOf` is commented out in the source.
- Printing the module and running it (codegen.cpp:25-42): the pass manager and the JIT are I/O.
- Logging to standard output and error. `exit(1)` is a `Fail` outcome, not a process exit.
- The command-line driver in `main.cpp` and the parser: outside code generation.
- createCoreFunctions: its functions are the constructor's parameter, as its body is not part of this model.
- `codegen.h` is not part of this model: its stack operations are written out in `Context` as described above.
- LLVM types, value names and instruction names beyond what a contract needs. The compare is always against an `i64` zero, whatever the operand's type.
- The order of blocks in a function's block list: the arena keeps creation order, and a block's function is recorded as its parent.
- The two-argument declaration leaves `assignmentExpr` uninitialised in the source. The model reads it as no initializer, which is what a zeroed object gives.
- The base `Node::codeGen` (node.h:17) returns null. Every modelled node overrides it, so null appears only as the value of an empty block.
- The null value of an empty block passed as an argument to a function the module has (codegen.cpp:97-100) is kept as an argument. `CallInst::Create` checks argument types only in builds with assertions. As a returned value it is kept too, because `ReturnInst::Create` reads null as `ret void`.
- ControlFlow.IfStraight: the layout with three new blocks, each well terminated, is stated for a block-free condition and straight branches only. For any branches, Joins.IfJoins states the edges.
- ControlFlow.IfInFunction: stated for a block-free condition and straight branches only, like ControlFlow.IfStraight.
- ControlFlow.WhileStraight: stated for a block-free condition and a straight body only. For any body, Joins.WhileJoins states the edges.
- ControlFlow.WhileInFunction: stated for a block-free condition and a straight body only, like ControlFlow.WhileStraight.
- Statements.DeclarationLowering: the exact code is stated for a block-free initializer only. Any initializer is covered by Invariants.StmtGrows.
- Statements.ReturnLowering: the exact code is stated for a block-free expression only.
- Functions.ParametersLowering: stated for parameters without initializers. With an initializer, the store into the slot follows the initializer's code, which this lemma does not spell out; Invariants.ParametersGrows still covers that case.
- Functions.FunctionDeclarationLowering: stated for parameters without initializers, like Functions.ParametersLowering.
- Functions.ReturnCellIsNotReset: stated for parameters without initializers and an empty body.
- ControlFlow.ControlInLoopBodyFails: stated for a straight prefix and an if with a block-free condition, or any while.
- Joins.IfInThenBranchDoublyTerminated: stated for a then-branch that is a lone if with a block-free condition.
