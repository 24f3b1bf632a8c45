/**
 * What each `codeGen` of codegen.cpp does, as functions from the state
 * before to the state after and the value produced.  A call of the source
 * that ends the process (`exit(1)`, or a null pointer that is dereferenced:
 * a missing function, or the null value of an empty block handed to an
 * instruction that reads its operand's type) is a `Fail` carrying the
 * reason; every other outcome is a `Done` with the new state.
 *
 * C++ leaves the order of the two operand evaluations in one call
 * expression unspecified; the model fixes one: operands are lowered left
 * to right, and the block the instruction goes into is read after its
 * operands have been lowered.
 * The functions are total; that a lowering started in a `Valid` state only
 * ever meets `Valid` states is proved in `Invariants`.
 */
module Lowering {
  import opened Ast
  import opened Ir
  import opened Context

  datatype CodegenError =
    | UndefinedType(name: string)        // typeOf on an unknown type name
    | UndeclaredVariable(name: string)   // getVar returned null
    | NoHandlerForOp(op: Token)          // binary operator outside + - * /
    | NoParentFunction                   // if/while in a block not yet inserted into a function
    | UnknownFunction(name: string)      // a call whose callee the module does not have
    | NullOperand                        // an instruction given the null value of an empty block

  datatype Result<T> = Ok(value: T) | Err(error: CodegenError)

  /** The outcome of lowering one node. */
  datatype Gen<T> = Done(st: State, value: T) | Fail(error: CodegenError)

  /** typeOf: `long` and `void` are the only type names. */
  function TypeOf(name: string): (r: Result<IrType>)
    ensures r == Ok(Int64) <==> name == "long"
    ensures r == Ok(Void) <==> name == "void"
    ensures r.Err? <==> name != "long" && name != "void"
    ensures r.Err? ==> r.error == UndefinedType(name)
  {
    if name == "long" then Ok(Int64)
    else if name == "void" then Ok(Void)
    else Err(UndefinedType(name))
  }

  /**
   * The types of a parameter list, in order; the first parameter whose type
   * name is unknown decides the error.
   */
  function TypeOfAll(params: seq<VariableDeclaration>): (r: Result<seq<IrType>>)
    ensures r.Ok? <==> forall i :: 0 <= i < |params| ==> TypeOf(params[i].typeName).Ok?
    ensures r.Ok? ==> |r.value| == |params| &&
                      forall i :: 0 <= i < |params| ==> TypeOf(params[i].typeName) == Ok(r.value[i])
    ensures r.Err? ==> exists i :: 0 <= i < |params| && r.error == UndefinedType(params[i].typeName) &&
                                   TypeOf(params[i].typeName).Err? &&
                                   forall j :: 0 <= j < i ==> TypeOf(params[j].typeName).Ok?
    decreases |params|
  {
    if |params| == 0 then Ok([])
    else
      var init := params[..|params| - 1];
      var last := |params| - 1;
      match TypeOfAll(init) {
        case Err(err) =>
          assert forall i :: 0 <= i < |init| ==> init[i] == params[i];
          Err(err)
        case Ok(ts) =>
          assert forall i :: 0 <= i < |init| ==> init[i] == params[i];
          match TypeOf(params[last].typeName) {
            case Err(err) => Err(err)
            case Ok(t) => Ok(ts + [t])
          }
      }
  }

  /** The instruction of each arithmetic token; no other token has one. */
  function ArithOf(op: Token): (r: Option<ArithOp>)
    ensures r == Some(Add) <==> op == TPLUS
    ensures r == Some(Sub) <==> op == TMINUS
    ensures r == Some(Mul) <==> op == TMUL
    ensures r == Some(SDiv) <==> op == TDIV
    ensures r.None? <==> op.OtherToken?
  {
    match op
    case TPLUS => Some(Add)
    case TMINUS => Some(Sub)
    case TMUL => Some(Mul)
    case TDIV => Some(SDiv)
    case OtherToken(_) => None
  }

  /**
   * IRBuilder::CreateICmpNE(v, i64 0) at the end of block `b`: on an integer
   * constant the builder folds the comparison to an `i1` constant and emits
   * nothing; otherwise it appends an `icmp ne` and yields its result.
   */
  function CompareNonZero(st: State, b: nat, v: Value): (r: (State, Value))
    ensures v.ConstInt? ==> r.0 == st && r.1 == ConstInt(Int1, if v.n != 0 then 1 else 0)
    ensures !v.ConstInt? ==> r.0 == Emit(st, b, ICmpNE0(v)) && r.1 == NextValue(st, b)
  {
    if v.ConstInt? then (st, ConstInt(Int1, if v.n != 0 then 1 else 0))
    else (Emit(st, b, ICmpNE0(v)), NextValue(st, b))
  }

  // ---- Expressions ----

  ghost function LowerExpr(st: State, e: Expr): Gen<Value>
    decreases e, 1
  {
    match e
    case Long(v) => Done(st, ConstInt(Int64, v))
    case Identifier(name) => LowerIdentifier(st, name)
    case MethodCall(_, _) => LowerMethodCall(st, e)
    case BinaryOperator(_, _, _) => LowerBinaryOperator(st, e)
    case Assignment(target, rhs) => LowerAssignment(st, target, rhs)
    case BlockExpr(b) => LowerBlock(st, b)
  }

  /** NIdentifier::codeGen: load from the variable's slot. */
  ghost function LowerIdentifier(st: State, name: string): Gen<Value> {
    var slot := GetVar(st.frames, name);
    if slot == NullValue then Fail(UndeclaredVariable(name))
    else Done(Emit(st, Cur(st), Load(slot)), NextValue(st, Cur(st)))
  }

  /**
   * NMethodCall::codeGen: the callee is looked up before the arguments are
   * lowered.  A missing callee is reported, the arguments are still
   * lowered, and then creating the call dereferences the null function.
   */
  ghost function LowerMethodCall(st: State, e: Expr): Gen<Value>
    requires e.MethodCall?
    decreases e, 0
  {
    var callee := GetFunction(st.functions, e.id);
    match LowerArguments(st, e.arguments)
    case Fail(err) => Fail(err)
    case Done(s1, args) =>
      if callee.None? then Fail(UnknownFunction(e.id))
      else Done(Emit(s1, Cur(s1), Call(callee.value, args)), NextValue(s1, Cur(s1)))
  }

  /** The argument values, lowered first to last. */
  ghost function LowerArguments(st: State, args: seq<Expr>): Gen<seq<Value>>
    decreases args, 0
  {
    if |args| == 0 then Done(st, [])
    else
      match LowerArguments(st, args[..|args| - 1])
      case Fail(err) => Fail(err)
      case Done(s1, vs) =>
        match LowerExpr(s1, args[|args| - 1])
        case Fail(err) => Fail(err)
        case Done(s2, v) => Done(s2, vs + [v])
  }

  /**
   * NBinaryOperator::codeGen: the operator is checked before any operand is
   * lowered; the instruction reads its operands' type, so a null operand is
   * fatal.
   */
  ghost function LowerBinaryOperator(st: State, e: Expr): Gen<Value>
    requires e.BinaryOperator?
    decreases e, 0
  {
    match ArithOf(e.op)
    case None => Fail(NoHandlerForOp(e.op))
    case Some(k) =>
      match LowerExpr(st, e.lhs)
      case Fail(err) => Fail(err)
      case Done(s1, l) =>
        match LowerExpr(s1, e.rhs)
        case Fail(err) => Fail(err)
        case Done(s2, r) =>
          if l == NullValue || r == NullValue then Fail(NullOperand)
          else Done(Emit(s2, Cur(s2), BinOp(k, l, r)), NextValue(s2, Cur(s2)))
  }

  /**
   * NAssignment::codeGen: the variable is looked up before the value is
   * lowered; the store reads the value's context, so a null value is fatal.
   */
  ghost function LowerAssignment(st: State, target: string, rhs: Expr): Gen<Value>
    decreases rhs, 2
  {
    var slot := GetVar(st.frames, target);
    if slot == NullValue then Fail(UndeclaredVariable(target))
    else
      match LowerExpr(st, rhs)
      case Fail(err) => Fail(err)
      case Done(s1, v) =>
        if v == NullValue then Fail(NullOperand)
        else Done(Emit(s1, Cur(s1), Store(v, slot)), NextValue(s1, Cur(s1)))
  }

  /** NBlock::codeGen: the value of the last statement, or null for no statement. */
  ghost function LowerBlock(st: State, b: Block): Gen<Value>
    decreases b, 0
  {
    LowerStatements(st, b.statements)
  }

  ghost function LowerStatements(st: State, ss: seq<Stmt>): Gen<Value>
    decreases ss, 0
  {
    if |ss| == 0 then Done(st, NullValue)
    else
      match LowerStatements(st, ss[..|ss| - 1])
      case Fail(err) => Fail(err)
      case Done(s1, _) => LowerStmt(s1, ss[|ss| - 1])
  }

  // ---- Statements ----

  ghost function LowerStmt(st: State, s: Stmt): Gen<Value>
    decreases s, 2
  {
    match s
    case ExpressionStatement(e) => LowerExpr(st, e)
    case ReturnStatement(e) => LowerReturn(st, e)
    case Declaration(d) => LowerVariableDeclaration(st, d)
    case FunctionDeclaration(_, _, _, _) => LowerFunctionDeclaration(st, s)
    case IfStatement(_, _, _) => LowerIf(st, s)
    case WhileStatement(_, _) => LowerWhile(st, s)
  }

  /** NReturnStatement::codeGen: the value goes into the return-value cell. */
  ghost function LowerReturn(st: State, e: Expr): Gen<Value>
    decreases e, 2
  {
    match LowerExpr(st, e)
    case Fail(err) => Fail(err)
    case Done(s1, v) => Done(s1.(returnValue := v), v)
  }

  /**
   * NVariableDeclaration::codeGen: an alloca in the current block, bound in
   * the current frame (replacing any binding there), then the initializer
   * as an assignment; the value is the alloca.
   */
  ghost function LowerVariableDeclaration(st: State, d: VariableDeclaration): Gen<Value>
    decreases d, 0
  {
    match TypeOf(d.typeName)
    case Err(err) => Fail(err)
    case Ok(ty) =>
      var alloc := NextValue(st, Cur(st));
      var s1 := Bind(Emit(st, Cur(st), Alloca(ty, d.id)), d.id, alloc);
      if d.assignmentExpr.None? then Done(s1, alloc)
      else
        match LowerAssignment(s1, d.id, d.assignmentExpr.value)
        case Fail(err) => Fail(err)
        case Done(s2, _) => Done(s2, alloc)
  }

  /**
   * The parameter loop of NFunctionDeclaration::codeGen, for function `f`
   * with entry block `entry`: each parameter is declared, and incoming
   * argument i is stored, in the entry block, into what `locals()` holds
   * for the parameter's name at that point.
   */
  ghost function LowerParameters(st: State, f: nat, entry: nat, params: seq<VariableDeclaration>): Gen<()>
    decreases params, 0
  {
    if |params| == 0 then Done(st, ())
    else
      match LowerParameters(st, f, entry, params[..|params| - 1])
      case Fail(err) => Fail(err)
      case Done(s1, _) =>
        var p := params[|params| - 1];
        match LowerVariableDeclaration(s1, p)
        case Fail(err) => Fail(err)
        case Done(s2, _) =>
          var slot := LocalsRead(s2, p.id);
          Done(Emit(LocalsTouch(s2, p.id), entry, Store(Argument(f, |params| - 1), slot)), ())
  }

  /** The state in which a function's parameters are lowered: its entry block under a new frame. */
  function FunctionEntry(st: State, f: Function): State {
    Push(AddBlock(AddFunction(st, f), "entry", Some(|st.functions|)), |st.blocks|)
  }

  /**
   * NFunctionDeclaration::codeGen: all types first, then an internal
   * function with an entry block, the parameters, the body and a `ret` of
   * the return-value cell in whatever block is current at the end;
   * removeBlock(entry) then drops every frame the body left behind.
   */
  ghost function LowerFunctionDeclaration(st: State, s: Stmt): Gen<Value>
    requires s.FunctionDeclaration?
    decreases s, 0
  {
    match TypeOfAll(s.arguments)
    case Err(err) => Fail(err)
    case Ok(argTypes) =>
      match TypeOf(s.returnType)
      case Err(err) => Fail(err)
      case Ok(retType) =>
        var f := |st.functions|;
        var entry := |st.blocks|;
        match LowerParameters(FunctionEntry(st, Function(s.name, retType, argTypes, InternalLinkage)), f, entry, s.arguments)
        case Fail(err) => Fail(err)
        case Done(s3, _) =>
          match LowerBlock(s3, s.body)
          case Fail(err) => Fail(err)
          case Done(s4, _) =>
            var s5 := Emit(s4, Cur(s4), Ret(s4.returnValue));
            Done(s5.(frames := RemoveBlock(s5.frames, entry)), FunctionValue(f))
  }

  /** The state in which an if lowers its then-branch, from the state after its condition. */
  function IfEntry(s1: State, condV: Value): State {
    var c := Cur(s1);
    var (s2, cmp) := CompareNonZero(s1, c, condV);
    var n := |s2.blocks|;
    var s3 := AddBlock(AddBlock(AddBlock(s2, "then", ParentOf(s1, c)), "else", None), "ifcont", None);
    Push(Emit(s3, c, CondBr(cmp, n, n + 1)), n)
  }

  /**
   * NIfStatement::codeGen.  After the condition: a comparison and a
   * conditional branch in the current block `c` to new blocks then (`n`)
   * and else (`n + 1`); the then-branch under its own frame and a branch to
   * ifcont (`n + 2`) at the end of `n`; the else-branch, when there is one,
   * under its own frame and a branch to ifcont at the end of `n + 1`; and a
   * frame for ifcont that stays.  The function is the parent of `c`; when
   * `c` has none, the source dereferences a null function once the
   * then-branch is done.
   */
  ghost function LowerIf(st: State, s: Stmt): Gen<Value>
    requires s.IfStatement?
    decreases s, 1
  {
    match LowerExpr(st, s.cond)
    case Fail(err) => Fail(err)
    case Done(s1, condV) => LowerBranches(s1, condV, s)
  }

  /**
   * The part of an if after its condition, which yielded `condV` in state
   * `s1`; the comparison inspects `condV`, so a null condition is fatal.
   */
  ghost function LowerBranches(s1: State, condV: Value, s: Stmt): Gen<Value>
    requires s.IfStatement?
    decreases s, 0
  {
    var parent := ParentOf(s1, Cur(s1));
    var n := |s1.blocks|;
    if condV == NullValue then Fail(NullOperand)
    else
      match LowerBlock(IfEntry(s1, condV), s.thenBlock)
      case Fail(err) => Fail(err)
      case Done(s5, _) =>
        if parent.None? then Fail(NoParentFunction)
        else LowerElseAndJoin(s5, n, parent.value, s.elseBlock)
  }

  /**
   * The part of an if after its then-branch, which left state `s5`; the if's
   * blocks start at `n` and `f` is the function of the block it started in.
   */
  ghost function LowerElseAndJoin(s5: State, n: nat, f: nat, elseBlock: Option<Block>): Gen<Value>
    decreases elseBlock, 1
  {
    match LowerElse(ThenExit(s5, n, f), n + 1, elseBlock)
    case Fail(err) => Fail(err)
    case Done(s8, _) => Done(IfJoin(s8, n, f), FunctionValue(f))
  }

  /** After the then-branch (blocks from `n`): its frame popped, the branch to ifcont, else joins `f`. */
  function ThenExit(s5: State, n: nat, f: nat): State {
    SetParent(Emit(Pop(s5), n, Br(n + 2)), n + 1, f)
  }

  /** After the else-branch: the branch to ifcont, ifcont joins `f` and becomes current. */
  function IfJoin(s8: State, n: nat, f: nat): State {
    Push(SetParent(Emit(s8, n + 1, Br(n + 2)), n + 2, f), n + 2)
  }

  /** The else-branch of an if, under its own frame for block `elseBB`; nothing when absent. */
  ghost function LowerElse(st: State, elseBB: nat, elseBlock: Option<Block>): Gen<Value>
    decreases elseBlock, 0
  {
    match elseBlock
    case None => Done(st, NullValue)
    case Some(b) =>
      match LowerBlock(Push(st, elseBB), b)
      case Fail(err) => Fail(err)
      case Done(s1, v) => Done(Pop(s1), v)
  }

  /** The state in which a while lowers its condition: three new blocks and the branch into the first. */
  function WhileEntry(st: State): State {
    var c := Cur(st);
    var n := |st.blocks|;
    var s1 := AddBlock(AddBlock(AddBlock(st, "loopCond", ParentOf(st, c)), "loop", None), "whilecont", None);
    Push(Emit(s1, c, Br(n)), n)
  }

  /** The state in which a while lowers its body, from the state after its condition. */
  function LoopEntry(s3: State, n: nat, condV: Value): State {
    var (s4, cmp) := CompareNonZero(Pop(s3), n, condV);
    Push(Emit(s4, n, CondBr(cmp, n + 1, n + 2)), n + 1)
  }

  /**
   * NWhileStatement::codeGen.  New blocks loopCond (`n`), loop (`n + 1`)
   * and whilecont (`n + 2`); a branch to `n` in the current block; the
   * condition under a frame for `n`, then, in `n` whatever block the
   * condition ended in, the comparison and a conditional branch to `n + 1`
   * and `n + 2`; the body under a frame for `n + 1` and the back edge to
   * `n` at the end of `n + 1`; and a frame for whilecont that stays.  The
   * loop block joins the function only after the body is lowered; when the
   * current block has no function, the source dereferences a null function
   * at that point.
   */
  ghost function LowerWhile(st: State, s: Stmt): Gen<Value>
    requires s.WhileStatement?
    decreases s, 1
  {
    match LowerExpr(WhileEntry(st), s.loopCond)
    case Fail(err) => Fail(err)
    case Done(s3, condV) => LowerLoopBody(s3, |st.blocks|, ParentOf(st, Cur(st)), condV, s)
  }

  /**
   * The part of a while after its condition, which yielded `condV` in state
   * `s3`; the loop's blocks start at `n` and `parent` is the function of the
   * block the while started in.  The comparison inspects `condV`, so a
   * null condition is fatal.
   */
  ghost function LowerLoopBody(s3: State, n: nat, parent: Option<nat>, condV: Value, s: Stmt): Gen<Value>
    requires s.WhileStatement?
    decreases s, 0
  {
    if condV == NullValue then Fail(NullOperand)
    else
      match LowerBlock(LoopEntry(s3, n, condV), s.loopBody)
      case Fail(err) => Fail(err)
      case Done(s6, _) =>
        if parent.None? then Fail(NoParentFunction)
        else Done(WhileExit(s6, n, parent.value), FunctionValue(parent.value))
  }

  /** After the body: its frame popped, the back edge, loop and whilecont join `f`, whilecont becomes current. */
  function WhileExit(s6: State, n: nat, f: nat): State {
    Push(SetParent(SetParent(Emit(Pop(s6), n + 1, Br(n)), n + 1, f), n + 2, f), n + 2)
  }

  // ---- Whole program ----

  /** The `main` function generateCode creates. */
  function MainFunction(): Function {
    Function("main", Int32, [], ExternalLinkage)
  }

  /**
   * generateCode: an external `main` returning i32 with an entry block, the
   * root block under a frame for it, `ret i32 0` in whatever block is
   * current at the end, and removeBlock(entry).
   */
  ghost function LowerProgram(st: State, root: Block): Gen<()> {
    var entry := |st.blocks|;
    match LowerBlock(FunctionEntry(st, MainFunction()), root)
    case Fail(err) => Fail(err)
    case Done(s3, _) =>
      var s4 := Emit(s3, Cur(s3), Ret(ConstInt(Int32, 0)));
      Done(s4.(frames := RemoveBlock(s4.frames, entry)), ())
  }
}
