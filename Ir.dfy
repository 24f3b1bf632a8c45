/**
 * A small abstract IR standing in for the LLVM objects that code generation
 * builds: types, values, instructions, basic blocks and functions.
 *
 * Blocks live in one arena and are named by their creation index.  A
 * terminator (`Br`, `CondBr`, `Ret`) is appended to a block's instruction
 * list like any other instruction, as the LLVM constructors do, so a block
 * may end up with no terminator or with more than one; `WellTerminated`
 * says when a block has exactly one, in last position.
 */
module Ir {
  import opened Ast

  /**
   * The IR types `typeOf` can produce, the 32-bit result of `main` and the
   * 1-bit type of a comparison.
   */
  datatype IrType = Int64 | Int32 | Int1 | Void

  datatype Linkage = ExternalLinkage | InternalLinkage

  /** The arithmetic instructions of the binary operator lowering. */
  datatype ArithOp = Add | Sub | Mul | SDiv

  /**
   * A value an instruction can use: a null pointer, an integer constant, the
   * result of instruction `index` of block `block`, incoming argument `index`
   * of function `fn`, or function `fn` itself.
   */
  datatype Value =
    | NullValue
    | ConstInt(ty: IrType, n: int)
    | InstValue(block: nat, index: nat)
    | Argument(fn: nat, index: nat)
    | FunctionValue(fn: nat)

  datatype Inst =
    | Alloca(ty: IrType, name: string)
    | Load(ptr: Value)
    | Store(val: Value, ptr: Value)
    | BinOp(op: ArithOp, lhs: Value, rhs: Value)
    | ICmpNE0(cmpOperand: Value)             // icmp ne <v>, i64 0
    | Call(callee: nat, args: seq<Value>)
    | Br(target: nat)
    | CondBr(cond: Value, ifTrue: nat, ifFalse: nat)
    | Ret(retVal: Value)                     // NullValue: ret void

  /**
   * A basic block: its label, the function it belongs to (`None` while it
   * has not been inserted into a function) and its instructions.
   */
  datatype BasicBlock = BasicBlock(name: string, parent: Option<nat>, insts: seq<Inst>)

  /** A function of the module: name, signature and linkage. */
  datatype Function = Function(name: string, retType: IrType, paramTypes: seq<IrType>, linkage: Linkage)

  predicate IsTerminator(i: Inst) {
    i.Br? || i.CondBr? || i.Ret?
  }

  /** Exactly one terminator, and it is the last instruction. */
  predicate WellTerminated(b: BasicBlock) {
    |b.insts| > 0 && IsTerminator(b.insts[|b.insts| - 1]) &&
    forall k :: 0 <= k < |b.insts| - 1 ==> !IsTerminator(b.insts[k])
  }

  /** The first function of the module with the given name (getFunction). */
  function GetFunction(functions: seq<Function>, name: string): (r: Option<nat>)
    ensures r.Some? ==> r.value < |functions| && functions[r.value].name == name &&
                        forall j :: 0 <= j < r.value ==> functions[j].name != name
    ensures r.None? ==> forall j :: 0 <= j < |functions| ==> functions[j].name != name
  {
    FirstNamed(functions, name, 0)
  }

  function FirstNamed(functions: seq<Function>, name: string, from: nat): (r: Option<nat>)
    requires from <= |functions|
    ensures r.Some? ==> from <= r.value < |functions| && functions[r.value].name == name &&
                        forall j :: from <= j < r.value ==> functions[j].name != name
    ensures r.None? ==> forall j :: from <= j < |functions| ==> functions[j].name != name
    decreases |functions| - from
  {
    if from == |functions| then None
    else if functions[from].name == name then Some(from)
    else FirstNamed(functions, name, from + 1)
  }
}
