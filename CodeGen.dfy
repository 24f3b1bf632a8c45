/**
 * The code generator as the source runs it: one context object whose
 * blocks, functions, frame stack and return-value cell every `codeGen`
 * updates in place.  Each method is proved to leave the object in the
 * state, and to return the value, that the matching function of
 * `Lowering` describes, or to report the error that function reports.
 */
module CodeGen {
  import opened Ast
  import opened Ir
  import opened Context
  import opened Lowering
  import opened Invariants
  import opened Properties

  class CodeGenContext {
    var blocks: seq<BasicBlock>
    var functions: seq<Function>
    var frames: seq<Frame>
    var returnValue: Value

    /** The fields as one value. */
    function Snapshot(): State
      reads this
    {
      State(blocks, functions, frames, returnValue)
    }

    /** The object is in state `g.st` and `res` carries `g`'s value, or both carry the same error. */
    ghost predicate Reflects<T>(g: Gen<T>, res: Result<T>)
      reads this
    {
      match g
      case Done(st, v) => res == Ok(v) && Snapshot() == st
      case Fail(err) => res == Err(err)
    }

    /**
     * A context for a module that already holds `coreFunctions` (what
     * createCoreFunctions adds), with no blocks and no frames.
     */
    constructor(coreFunctions: seq<Function>)
      ensures Snapshot() == State([], coreFunctions, [], NullValue)
    {
      blocks := [];
      functions := coreFunctions;
      frames := [];
      returnValue := NullValue;
    }

    // ---- The context's own operations ----

    function CurrentBlock(): nat
      requires |frames| > 0
      reads this
    {
      Cur(Snapshot())
    }

    method PushBlock(b: nat)
      modifies this
      ensures Snapshot() == Push(old(Snapshot()), b)
    {
      frames := frames + [Frame(b, map[])];
    }

    method PopBlock()
      requires |frames| > 0
      modifies this
      ensures Snapshot() == Pop(old(Snapshot()))
    {
      frames := frames[..|frames| - 1];
    }

    method RemoveBlockFrames(b: nat)
      modifies this
      ensures Snapshot() == old(Snapshot()).(frames := RemoveBlock(old(frames), b))
    {
      while |frames| > 0 && frames[|frames| - 1].block != b
        invariant RemoveBlock(frames, b) == RemoveBlock(old(frames), b)
        invariant blocks == old(blocks) && functions == old(functions) && returnValue == old(returnValue)
        decreases |frames|
      {
        frames := frames[..|frames| - 1];
      }
      if |frames| > 0 {
        frames := frames[..|frames| - 1];
      }
    }

    method SetCurrentReturnValue(v: Value)
      modifies this
      ensures Snapshot() == old(Snapshot()).(returnValue := v)
    {
      returnValue := v;
    }

    /** `locals()[name] = v`. */
    method BindLocal(name: string, v: Value)
      requires |frames| > 0
      modifies this
      ensures Snapshot() == Bind(old(Snapshot()), name, v)
    {
      var top := frames[|frames| - 1];
      frames := frames[|frames| - 1 := top.(locals := top.locals[name := v])];
    }

    /** Reading `locals()[name]`, which inserts a null binding for a missing name. */
    method ReadLocal(name: string) returns (v: Value)
      requires |frames| > 0
      modifies this
      ensures v == LocalsRead(old(Snapshot()), name)
      ensures Snapshot() == LocalsTouch(old(Snapshot()), name)
    {
      var top := frames[|frames| - 1];
      if name in top.locals {
        v := top.locals[name];
      } else {
        v := NullValue;
        BindLocal(name, NullValue);
      }
    }

    /** An instruction created at the end of block `b`; its value. */
    method Append(b: nat, inst: Inst) returns (v: Value)
      requires b < |blocks|
      modifies this
      ensures v == NextValue(old(Snapshot()), b)
      ensures Snapshot() == Emit(old(Snapshot()), b, inst)
    {
      v := InstValue(b, |blocks[b].insts|);
      blocks := blocks[b := blocks[b].(insts := blocks[b].insts + [inst])];
    }

    method CreateBlock(name: string, parent: Option<nat>) returns (b: nat)
      modifies this
      ensures b == |old(blocks)|
      ensures Snapshot() == AddBlock(old(Snapshot()), name, parent)
    {
      b := |blocks|;
      blocks := blocks + [BasicBlock(name, parent, [])];
    }

    method InsertInto(b: nat, f: nat)
      requires b < |blocks|
      modifies this
      ensures Snapshot() == SetParent(old(Snapshot()), b, f)
    {
      blocks := blocks[b := blocks[b].(parent := Some(f))];
    }

    method CreateFunction(f: Function) returns (i: nat)
      modifies this
      ensures i == |old(functions)|
      ensures Snapshot() == AddFunction(old(Snapshot()), f)
    {
      i := |functions|;
      functions := functions + [f];
    }

    /** IRBuilder::CreateICmpNE(v, i64 0) with the builder positioned at the end of `b`. */
    method CompareWithZero(b: nat, v: Value) returns (cmp: Value)
      requires b < |blocks|
      modifies this
      ensures (Snapshot(), cmp) == CompareNonZero(old(Snapshot()), b, v)
    {
      if v.ConstInt? {
        cmp := ConstInt(Int1, if v.n != 0 then 1 else 0);
      } else {
        cmp := Append(b, ICmpNE0(v));
      }
    }

    // ---- codeGen ----

    /** generateCode: lowers the program into `main`. */
    method GenerateCode(root: Block) returns (res: Result<()>)
      requires Wired(Snapshot())
      modifies this
      ensures Reflects(LowerProgram(old(Snapshot()), root), res)
    {
      ghost var st0 := Snapshot();
      var mainFunction := CreateFunction(Function("main", Int32, [], ExternalLinkage));
      var bblock := CreateBlock("entry", Some(mainFunction));
      PushBlock(bblock);
      ghost var s2 := Snapshot();
      assert Valid(s2) by {
        EnterFunction(st0, MainFunction());
      }
      var r := CodeGenBlock(root);
      if r.Err? {
        return Err(r.error);
      }
      assert Valid(Snapshot()) by {
        BlockGrows(s2, root);
      }
      var _ := Append(CurrentBlock(), Ret(ConstInt(Int32, 0)));
      RemoveBlockFrames(bblock);
      return Ok(());
    }

    method CodeGenExpr(e: Expr) returns (res: Result<Value>)
      requires Valid(Snapshot())
      modifies this
      ensures Reflects(LowerExpr(old(Snapshot()), e), res)
      decreases e, 1
    {
      match e
      case Long(v) =>
        res := Ok(ConstInt(Int64, v));
      case Identifier(name) =>
        res := CodeGenIdentifier(name);
      case MethodCall(_, _) =>
        res := CodeGenMethodCall(e);
      case BinaryOperator(_, _, _) =>
        res := CodeGenBinaryOperator(e);
      case Assignment(target, rhs) =>
        res := CodeGenAssignment(target, rhs);
      case BlockExpr(b) =>
        res := CodeGenBlock(b);
    }

    method CodeGenIdentifier(name: string) returns (res: Result<Value>)
      requires Valid(Snapshot())
      modifies this
      ensures Reflects(LowerIdentifier(old(Snapshot()), name), res)
    {
      var slot := GetVar(frames, name);
      if slot == NullValue {
        return Err(UndeclaredVariable(name));
      }
      var v := Append(CurrentBlock(), Load(slot));
      return Ok(v);
    }

    method CodeGenMethodCall(e: Expr) returns (res: Result<Value>)
      requires Valid(Snapshot()) && e.MethodCall?
      modifies this
      ensures Reflects(LowerMethodCall(old(Snapshot()), e), res)
      decreases e, 0
    {
      ghost var st0 := Snapshot();
      var callee := GetFunction(functions, e.id);
      var args: seq<Value> := [];
      var i := 0;
      while i < |e.arguments|
        invariant 0 <= i <= |e.arguments|
        invariant LowerArguments(st0, e.arguments[..i]) == Done(Snapshot(), args)
      {
        assert Valid(Snapshot()) by {
          ArgumentsGrows(st0, e.arguments[..i]);
        }
        assert e.arguments[..i + 1][..i] == e.arguments[..i];
        var r := CodeGenExpr(e.arguments[i]);
        if r.Err? {
          ArgumentsPrefixFails(st0, e.arguments, i + 1);
          return Err(r.error);
        }
        args := args + [r.value];
        i := i + 1;
      }
      assert e.arguments[..i] == e.arguments;
      assert Valid(Snapshot()) by {
        ArgumentsGrows(st0, e.arguments);
      }
      if callee.None? {
        return Err(UnknownFunction(e.id));
      }
      var v := Append(CurrentBlock(), Call(callee.value, args));
      return Ok(v);
    }

    method CodeGenBinaryOperator(e: Expr) returns (res: Result<Value>)
      requires Valid(Snapshot()) && e.BinaryOperator?
      modifies this
      ensures Reflects(LowerBinaryOperator(old(Snapshot()), e), res)
      decreases e, 0
    {
      ghost var st0 := Snapshot();
      var instr := ArithOf(e.op);
      if instr.None? {
        return Err(NoHandlerForOp(e.op));
      }
      var l := CodeGenExpr(e.lhs);
      if l.Err? {
        return Err(l.error);
      }
      ghost var s1 := Snapshot();
      assert Valid(s1) by {
        ExprGrows(st0, e.lhs);
      }
      var r := CodeGenExpr(e.rhs);
      if r.Err? {
        return Err(r.error);
      }
      assert Valid(Snapshot()) by {
        ExprGrows(s1, e.rhs);
      }
      if l.value == NullValue || r.value == NullValue {
        return Err(NullOperand);
      }
      var v := Append(CurrentBlock(), BinOp(instr.value, l.value, r.value));
      return Ok(v);
    }

    method CodeGenAssignment(target: string, rhs: Expr) returns (res: Result<Value>)
      requires Valid(Snapshot())
      modifies this
      ensures Reflects(LowerAssignment(old(Snapshot()), target, rhs), res)
      decreases rhs, 2
    {
      ghost var st0 := Snapshot();
      var slot := GetVar(frames, target);
      if slot == NullValue {
        return Err(UndeclaredVariable(target));
      }
      var r := CodeGenExpr(rhs);
      if r.Err? {
        return Err(r.error);
      }
      assert Valid(Snapshot()) by {
        ExprGrows(st0, rhs);
      }
      if r.value == NullValue {
        return Err(NullOperand);
      }
      var v := Append(CurrentBlock(), Store(r.value, slot));
      return Ok(v);
    }

    method CodeGenBlock(b: Block) returns (res: Result<Value>)
      requires Valid(Snapshot())
      modifies this
      ensures Reflects(LowerBlock(old(Snapshot()), b), res)
      decreases b, 0
    {
      ghost var st0 := Snapshot();
      var ss := b.statements;
      var last := NullValue;
      var i := 0;
      while i < |ss|
        invariant 0 <= i <= |ss|
        invariant LowerStatements(st0, ss[..i]) == Done(Snapshot(), last)
      {
        assert Valid(Snapshot()) by {
          StatementsGrows(st0, ss[..i]);
        }
        assert ss[..i + 1][..i] == ss[..i];
        var r := CodeGenStmt(ss[i]);
        if r.Err? {
          StatementsPrefixFails(st0, ss, i + 1);
          return Err(r.error);
        }
        last := r.value;
        i := i + 1;
      }
      assert ss[..i] == ss;
      return Ok(last);
    }

    method CodeGenStmt(s: Stmt) returns (res: Result<Value>)
      requires Valid(Snapshot())
      modifies this
      ensures Reflects(LowerStmt(old(Snapshot()), s), res)
      decreases s, 2
    {
      match s
      case ExpressionStatement(e) =>
        res := CodeGenExpr(e);
      case ReturnStatement(e) =>
        res := CodeGenReturn(e);
      case Declaration(d) =>
        res := CodeGenVariableDeclaration(d);
      case FunctionDeclaration(_, _, _, _) =>
        res := CodeGenFunctionDeclaration(s);
      case IfStatement(_, _, _) =>
        res := CodeGenIf(s);
      case WhileStatement(_, _) =>
        res := CodeGenWhile(s);
    }

    method CodeGenReturn(e: Expr) returns (res: Result<Value>)
      requires Valid(Snapshot())
      modifies this
      ensures Reflects(LowerReturn(old(Snapshot()), e), res)
      decreases e, 2
    {
      res := CodeGenExpr(e);
      if res.Ok? {
        SetCurrentReturnValue(res.value);
      }
    }

    method CodeGenVariableDeclaration(d: VariableDeclaration) returns (res: Result<Value>)
      requires Valid(Snapshot())
      modifies this
      ensures Reflects(LowerVariableDeclaration(old(Snapshot()), d), res)
      decreases d, 0
    {
      var ty := TypeOf(d.typeName);
      if ty.Err? {
        return Err(ty.error);
      }
      var alloc := Append(CurrentBlock(), Alloca(ty.value, d.id));
      BindLocal(d.id, alloc);
      if d.assignmentExpr.Some? {
        var r := CodeGenAssignment(d.id, d.assignmentExpr.value);
        if r.Err? {
          return Err(r.error);
        }
      }
      return Ok(alloc);
    }

    /** The type of each parameter, in declaration order. */
    method ParameterTypes(params: seq<VariableDeclaration>) returns (res: Result<seq<IrType>>)
      ensures res == TypeOfAll(params)
    {
      var argTypes: seq<IrType> := [];
      var i := 0;
      while i < |params|
        invariant 0 <= i <= |params|
        invariant TypeOfAll(params[..i]) == Ok(argTypes)
      {
        assert params[..i + 1][..i] == params[..i];
        var t := TypeOf(params[i].typeName);
        if t.Err? {
          TypeOfAllPrefixFails(params, i + 1);
          return Err(t.error);
        }
        argTypes := argTypes + [t.value];
        i := i + 1;
      }
      assert params[..i] == params;
      return Ok(argTypes);
    }

    method CodeGenFunctionDeclaration(s: Stmt) returns (res: Result<Value>)
      requires Valid(Snapshot()) && s.FunctionDeclaration?
      modifies this
      ensures Reflects(LowerFunctionDeclaration(old(Snapshot()), s), res)
      decreases s, 0
    {
      ghost var st0 := Snapshot();
      var argTypes := ParameterTypes(s.arguments);
      if argTypes.Err? {
        return Err(argTypes.error);
      }
      var retType := TypeOf(s.returnType);
      if retType.Err? {
        return Err(retType.error);
      }
      var fn := CreateFunction(Function(s.name, retType.value, argTypes.value, InternalLinkage));
      var bblock := CreateBlock("entry", Some(fn));
      PushBlock(bblock);
      ghost var s2 := Snapshot();
      assert Valid(s2) && bblock == Cur(s2) by {
        EnterFunction(st0, Function(s.name, retType.value, argTypes.value, InternalLinkage));
      }
      var r := CodeGenParameters(fn, bblock, s.arguments);
      if r.Err? {
        return Err(r.error);
      }
      ghost var s3 := Snapshot();
      assert Valid(s3) by {
        ParametersGrows(s2, fn, bblock, s.arguments);
      }
      var v := CodeGenBlock(s.body);
      if v.Err? {
        return Err(v.error);
      }
      assert Valid(Snapshot()) by {
        BlockGrows(s3, s.body);
      }
      var _ := Append(CurrentBlock(), Ret(returnValue));
      RemoveBlockFrames(bblock);
      return Ok(FunctionValue(fn));
    }

    /**
     * The parameter loop of a function declaration: each parameter declared
     * in turn and its incoming argument stored in the entry block `entry`.
     */
    method CodeGenParameters(fn: nat, entry: nat, params: seq<VariableDeclaration>) returns (res: Result<()>)
      requires Valid(Snapshot()) && entry == CurrentBlock()
      modifies this
      ensures Reflects(LowerParameters(old(Snapshot()), fn, entry, params), res)
      decreases params, 1
    {
      ghost var s2 := Snapshot();
      var i := 0;
      while i < |params|
        invariant 0 <= i <= |params|
        invariant LowerParameters(s2, fn, entry, params[..i]) == Done(Snapshot(), ())
        invariant entry < |blocks|
      {
        assert Valid(Snapshot()) by {
          ParametersGrows(s2, fn, entry, params[..i]);
        }
        assert params[..i + 1][..i] == params[..i];
        var p := params[i];
        ghost var s3 := Snapshot();
        var r := CodeGenVariableDeclaration(p);
        if r.Err? {
          ParametersPrefixFails(s2, fn, entry, params, i + 1);
          return Err(r.error);
        }
        assert |frames| > 0 && |s3.blocks| <= |blocks| by {
          DeclarationGrows(s3, p);
        }
        var slot := ReadLocal(p.id);
        var _ := Append(entry, Store(Argument(fn, i), slot));
        i := i + 1;
      }
      assert params[..i] == params;
      return Ok(());
    }

    method CodeGenIf(s: Stmt) returns (res: Result<Value>)
      requires Valid(Snapshot()) && s.IfStatement?
      modifies this
      ensures Reflects(LowerIf(old(Snapshot()), s), res)
      decreases s, 1
    {
      ghost var st0 := Snapshot();
      var condV := CodeGenExpr(s.cond);
      if condV.Err? {
        return Err(condV.error);
      }
      assert Valid(Snapshot()) by {
        ExprGrows(st0, s.cond);
      }
      res := CodeGenBranches(condV.value, s);
    }

    /**
     * The start of an if whose condition yielded `condV`: the comparison, the
     * then, else and ifcont blocks, the conditional branch out of the
     * current block, and a frame for then (block `thenBB`).  `theFunction`
     * is the function of the block that was current.
     */
    method OpenIf(condV: Value) returns (thenBB: nat, theFunction: Option<nat>)
      requires Valid(Snapshot())
      modifies this
      ensures thenBB == |old(blocks)| && theFunction == ParentOf(old(Snapshot()), Cur(old(Snapshot())))
      ensures Snapshot() == IfEntry(old(Snapshot()), condV)
    {
      var insertBlock := CurrentBlock();
      theFunction := blocks[insertBlock].parent;
      var cmp := CompareWithZero(insertBlock, condV);
      thenBB := CreateBlock("then", theFunction);
      var elseBB := CreateBlock("else", None);
      var ifContBB := CreateBlock("ifcont", None);
      var _ := Append(insertBlock, CondBr(cmp, thenBB, elseBB));
      PushBlock(thenBB);
    }

    /** An if after its condition yielded `condV`: the blocks, the branches and the join. */
    method CodeGenBranches(condV: Value, s: Stmt) returns (res: Result<Value>)
      requires Valid(Snapshot()) && s.IfStatement?
      modifies this
      ensures Reflects(LowerBranches(old(Snapshot()), condV, s), res)
      decreases s, 0
    {
      ghost var s1 := Snapshot();
      if condV == NullValue {
        return Err(NullOperand);
      }
      var thenBB, theFunction := OpenIf(condV);
      assert Valid(Snapshot()) by {
        IfOpens(s1, condV);
      }
      var thenV := CodeGenBlock(s.thenBlock);
      if thenV.Err? {
        return Err(thenV.error);
      }
      if theFunction.None? {
        return Err(NoParentFunction);
      }
      assert |frames| > 0 && Valid(Pop(Snapshot())) && thenBB + 2 < |blocks| && theFunction.value < |functions| by {
        IfOpens(s1, condV);
        BlockGrows(IfEntry(s1, condV), s.thenBlock);
        RoundGrows(s1, Pop(IfEntry(s1, condV)), thenBB, Snapshot());
      }
      res := CodeGenElseAndJoin(thenBB, theFunction.value, s.elseBlock);
    }

    /**
     * An if after its then-branch, whose frame is still on top: the branch
     * to ifcont, the else-branch in block `n + 1` and the join in `n + 2`,
     * both inserted into function `f`.
     */
    method CodeGenElseAndJoin(n: nat, f: nat, elseBlock: Option<Block>) returns (res: Result<Value>)
      requires |frames| > 0 && Valid(Pop(Snapshot())) && n + 2 < |blocks| && f < |functions|
      modifies this
      ensures Reflects(LowerElseAndJoin(old(Snapshot()), n, f, elseBlock), res)
      decreases elseBlock, 1
    {
      ghost var s5 := Snapshot();
      var thenBB, elseBB, ifContBB := n, n + 1, n + 2;
      PopBlock();
      var _ := Append(thenBB, Br(ifContBB));
      InsertInto(elseBB, f);
      ghost var s7 := Snapshot();
      assert s7 == ThenExit(s5, n, f);
      if elseBlock.Some? {
        PushBlock(elseBB);
        var elseV := CodeGenBlock(elseBlock.value);
        if elseV.Err? {
          return Err(elseV.error);
        }
        assert |frames| > 0 by {
          BlockGrows(Push(s7, elseBB), elseBlock.value);
        }
        PopBlock();
      }
      ghost var s8 := Snapshot();
      assert LowerElse(s7, elseBB, elseBlock) == Done(s8, LowerElse(s7, elseBB, elseBlock).value);
      assert elseBB < |blocks| && ifContBB < |blocks| by {
        ElseAround(s7, elseBB, elseBlock);
      }
      var _ := Append(elseBB, Br(ifContBB));
      InsertInto(ifContBB, f);
      PushBlock(ifContBB);
      return Ok(FunctionValue(f));
    }

    method CodeGenWhile(s: Stmt) returns (res: Result<Value>)
      requires Valid(Snapshot()) && s.WhileStatement?
      modifies this
      ensures Reflects(LowerWhile(old(Snapshot()), s), res)
      decreases s, 1
    {
      ghost var st0 := Snapshot();
      var insertBlock := CurrentBlock();
      var theFunction := blocks[insertBlock].parent;
      var loopCondBB := CreateBlock("loopCond", theFunction);
      var loopBB := CreateBlock("loop", None);
      var whileContBB := CreateBlock("whilecont", None);
      var _ := Append(insertBlock, Br(loopCondBB));
      PushBlock(loopCondBB);
      assert Snapshot() == WhileEntry(st0);
      assert Valid(Snapshot()) by {
        WhileOpens(st0);
      }
      var condV := CodeGenExpr(s.loopCond);
      if condV.Err? {
        return Err(condV.error);
      }
      assert |frames| > 0 && Valid(Pop(Snapshot())) && loopCondBB + 2 < |blocks| &&
             (theFunction.Some? ==> theFunction.value < |functions|) by {
        WhileOpens(st0);
        ExprGrows(WhileEntry(st0), s.loopCond);
        RoundGrows(st0, Pop(WhileEntry(st0)), loopCondBB, Snapshot());
      }
      res := CodeGenLoopBody(loopCondBB, theFunction, condV.value, s);
    }

    /**
     * A while after its condition yielded `condV`, whose frame is still on
     * top: the test at the end of loopCond (`n`), the body in loop (`n + 1`),
     * the back edge, and the exit to whilecont (`n + 2`), inserting loop and
     * whilecont into `parent`.
     */
    method CodeGenLoopBody(n: nat, parent: Option<nat>, condV: Value, s: Stmt) returns (res: Result<Value>)
      requires |frames| > 0 && Valid(Pop(Snapshot())) && n + 2 < |blocks|
      requires parent.Some? ==> parent.value < |functions|
      requires s.WhileStatement?
      modifies this
      ensures Reflects(LowerLoopBody(old(Snapshot()), n, parent, condV, s), res)
      decreases s, 0
    {
      ghost var s3 := Snapshot();
      var loopCondBB, loopBB, whileContBB := n, n + 1, n + 2;
      PopBlock();
      if condV == NullValue {
        return Err(NullOperand);
      }
      var cmp := CompareWithZero(loopCondBB, condV);
      var _ := Append(loopCondBB, CondBr(cmp, loopBB, whileContBB));
      PushBlock(loopBB);
      assert Snapshot() == LoopEntry(s3, n, condV);
      var bodyV := CodeGenBlock(s.loopBody);
      if bodyV.Err? {
        return Err(bodyV.error);
      }
      ghost var s6 := Snapshot();
      assert |frames| > 0 && whileContBB < |blocks| by {
        BlockGrows(LoopEntry(s3, n, condV), s.loopBody);
        PushPopAround(Pop(LoopEntry(s3, n, condV)), loopBB, s6);
      }
      PopBlock();
      var _ := Append(loopBB, Br(loopCondBB));
      if parent.None? {
        return Err(NoParentFunction);
      }
      InsertInto(loopBB, parent.value);
      InsertInto(whileContBB, parent.value);
      PushBlock(whileContBB);
      return Ok(FunctionValue(parent.value));
    }
  }
}
