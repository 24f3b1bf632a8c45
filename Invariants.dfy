/**
 * What any lowering keeps: started in a `Valid` state, every `codeGen`
 * ends, when it does not fail, in a `Valid` state that `Grows` from the
 * one it started in.  The lemmas follow the lowering functions one for
 * one, with the same termination measure.
 */
module Invariants {
  import opened Ast
  import opened Ir
  import opened Context
  import opened Lowering

  /** A successful outcome is a valid growth of `st`. */
  ghost predicate GrowsTo<T>(st: State, g: Gen<T>)
    requires Valid(st)
  {
    g.Done? ==> Valid(g.st) && Grows(st, g.st)
  }

  // ---- Steps ----

  /** After a growth the current block is the old current block or one created since. */
  lemma GrowsCur(a: State, x: State)
    requires Valid(a) && Valid(x) && Grows(a, x)
    ensures Cur(x) == Cur(a) || Cur(x) >= |a.blocks|
  {
    if |x.frames| > |a.frames| {
      assert x.frames[|x.frames| - 1].block >= |a.blocks|;
    }
  }

  lemma EmitCurGrows(a: State, x: State, inst: Inst)
    requires Valid(a) && Valid(x) && Grows(a, x)
    ensures Valid(Emit(x, Cur(x), inst)) && Grows(a, Emit(x, Cur(x), inst))
  {
    GrowsCur(a, x);
    EmitGrows(a, x, Cur(x), inst);
  }

  lemma PopPush(x: State, n: nat)
    ensures Pop(Push(x, n)) == x
  {
    assert (x.frames + [Frame(n, map[])])[..|x.frames|] == x.frames;
  }

  /** Pushing a frame for a block `n` created since `a`, lowering under it and popping is a growth of `a`. */
  lemma RoundGrows(a: State, x: State, n: nat, y: State)
    requires Valid(a) && Valid(x) && Grows(a, x) && |a.blocks| <= n < |x.blocks|
    requires Valid(y) && Grows(Push(x, n), y)
    ensures Valid(Pop(y)) && Grows(a, Pop(y)) && |x.blocks| <= |Pop(y).blocks|
  {
    PushPopAround(x, n, y);
    AroundGrows(a, x, n, Pop(y));
  }

  // ---- Expressions ----

  lemma {:induction false} ExprGrows(st: State, e: Expr)
    requires Valid(st)
    ensures GrowsTo(st, LowerExpr(st, e))
    decreases e, 1
  {
    match e
    case Long(_) => GrowsRefl(st);
    case Identifier(name) => IdentifierGrows(st, name);
    case MethodCall(_, _) => MethodCallGrows(st, e);
    case BinaryOperator(_, _, _) => BinaryOperatorGrows(st, e);
    case Assignment(target, rhs) => AssignmentGrows(st, target, rhs);
    case BlockExpr(b) => BlockGrows(st, b);
  }

  lemma IdentifierGrows(st: State, name: string)
    requires Valid(st)
    ensures GrowsTo(st, LowerIdentifier(st, name))
  {
    GrowsRefl(st);
    EmitCurGrows(st, st, Load(GetVar(st.frames, name)));
  }

  lemma {:induction false} MethodCallGrows(st: State, e: Expr)
    requires Valid(st) && e.MethodCall?
    ensures GrowsTo(st, LowerMethodCall(st, e))
    decreases e, 0
  {
    ArgumentsGrows(st, e.arguments);
    var g := LowerArguments(st, e.arguments);
    if g.Done? && GetFunction(st.functions, e.id).Some? {
      EmitCurGrows(st, g.st, Call(GetFunction(st.functions, e.id).value, g.value));
    }
  }

  lemma {:induction false} ArgumentsGrows(st: State, args: seq<Expr>)
    requires Valid(st)
    ensures GrowsTo(st, LowerArguments(st, args))
    decreases args, 0
  {
    if |args| == 0 {
      GrowsRefl(st);
    } else {
      ArgumentsGrows(st, args[..|args| - 1]);
      var g1 := LowerArguments(st, args[..|args| - 1]);
      if g1.Done? {
        ExprGrows(g1.st, args[|args| - 1]);
        var g2 := LowerExpr(g1.st, args[|args| - 1]);
        if g2.Done? {
          GrowsTrans(st, g1.st, g2.st);
        }
      }
    }
  }

  lemma {:induction false} BinaryOperatorGrows(st: State, e: Expr)
    requires Valid(st) && e.BinaryOperator?
    ensures GrowsTo(st, LowerBinaryOperator(st, e))
    decreases e, 0
  {
    if ArithOf(e.op).Some? {
      ExprGrows(st, e.lhs);
      var g1 := LowerExpr(st, e.lhs);
      if g1.Done? {
        ExprGrows(g1.st, e.rhs);
        var g2 := LowerExpr(g1.st, e.rhs);
        if g2.Done? {
          GrowsTrans(st, g1.st, g2.st);
          EmitCurGrows(st, g2.st, BinOp(ArithOf(e.op).value, g1.value, g2.value));
        }
      }
    }
  }

  lemma {:induction false} AssignmentGrows(st: State, target: string, rhs: Expr)
    requires Valid(st)
    ensures GrowsTo(st, LowerAssignment(st, target, rhs))
    decreases rhs, 2
  {
    var slot := GetVar(st.frames, target);
    if slot != NullValue {
      ExprGrows(st, rhs);
      var g := LowerExpr(st, rhs);
      if g.Done? {
        EmitCurGrows(st, g.st, Store(g.value, slot));
      }
    }
  }

  lemma {:induction false} BlockGrows(st: State, b: Block)
    requires Valid(st)
    ensures GrowsTo(st, LowerBlock(st, b))
    decreases b, 0
  {
    StatementsGrows(st, b.statements);
  }

  lemma {:induction false} StatementsGrows(st: State, ss: seq<Stmt>)
    requires Valid(st)
    ensures GrowsTo(st, LowerStatements(st, ss))
    decreases ss, 0
  {
    if |ss| == 0 {
      GrowsRefl(st);
    } else {
      StatementsGrows(st, ss[..|ss| - 1]);
      var g1 := LowerStatements(st, ss[..|ss| - 1]);
      if g1.Done? {
        StmtGrows(g1.st, ss[|ss| - 1]);
        var g2 := LowerStmt(g1.st, ss[|ss| - 1]);
        if g2.Done? {
          GrowsTrans(st, g1.st, g2.st);
        }
      }
    }
  }

  // ---- Statements ----

  lemma {:induction false} StmtGrows(st: State, s: Stmt)
    requires Valid(st)
    ensures GrowsTo(st, LowerStmt(st, s))
    decreases s, 2
  {
    match s
    case ExpressionStatement(e) => ExprGrows(st, e);
    case ReturnStatement(e) => ReturnGrows(st, e);
    case Declaration(d) => DeclarationGrows(st, d);
    case FunctionDeclaration(_, _, _, _) => FunctionDeclarationGrows(st, s);
    case IfStatement(_, _, _) => IfGrows(st, s);
    case WhileStatement(_, _) => WhileGrows(st, s);
  }

  lemma {:induction false} ReturnGrows(st: State, e: Expr)
    requires Valid(st)
    ensures GrowsTo(st, LowerReturn(st, e))
    decreases e, 2
  {
    ExprGrows(st, e);
  }

  lemma {:induction false} DeclarationGrows(st: State, d: VariableDeclaration)
    requires Valid(st)
    ensures GrowsTo(st, LowerVariableDeclaration(st, d))
    decreases d, 0
  {
    if TypeOf(d.typeName).Ok? {
      var alloc := NextValue(st, Cur(st));
      var inst := Alloca(TypeOf(d.typeName).value, d.id);
      GrowsRefl(st);
      EmitCurGrows(st, st, inst);
      BindGrows(st, Emit(st, Cur(st), inst), d.id, alloc);
      var s1 := Bind(Emit(st, Cur(st), inst), d.id, alloc);
      if d.assignmentExpr.Some? {
        AssignmentGrows(s1, d.id, d.assignmentExpr.value);
        var g := LowerAssignment(s1, d.id, d.assignmentExpr.value);
        if g.Done? {
          GrowsTrans(st, s1, g.st);
        }
      }
    }
  }

  lemma {:induction false} ParametersGrows(st: State, f: nat, entry: nat, params: seq<VariableDeclaration>)
    requires Valid(st) && entry == Cur(st)
    ensures GrowsTo(st, LowerParameters(st, f, entry, params))
    decreases params, 0
  {
    if |params| == 0 {
      GrowsRefl(st);
    } else {
      var p := params[|params| - 1];
      ParametersGrows(st, f, entry, params[..|params| - 1]);
      var g1 := LowerParameters(st, f, entry, params[..|params| - 1]);
      if g1.Done? {
        DeclarationGrows(g1.st, p);
        var g2 := LowerVariableDeclaration(g1.st, p);
        if g2.Done? {
          GrowsTrans(st, g1.st, g2.st);
          TouchGrows(st, g2.st, p.id);
          EmitGrows(st, LocalsTouch(g2.st, p.id), entry, Store(Argument(f, |params| - 1), LocalsRead(g2.st, p.id)));
        }
      }
    }
  }

  /** Entering a new function: a valid state whose top frame is the new entry block. */
  lemma EnterFunction(st: State, fn: Function)
    requires Wired(st)
    ensures var s2 := FunctionEntry(st, fn);
            Valid(s2) && Cur(s2) == |st.blocks| && |s2.blocks| == |st.blocks| + 1 &&
            s2.blocks[..|st.blocks|] == st.blocks && s2.functions == st.functions + [fn] &&
            s2.frames == st.frames + [Frame(|st.blocks|, map[])]
  {
    var s2 := FunctionEntry(st, fn);
    assert s2.blocks[..|st.blocks|] == st.blocks;
  }

  lemma {:induction false} FunctionDeclarationGrows(st: State, s: Stmt)
    requires Valid(st) && s.FunctionDeclaration?
    ensures GrowsTo(st, LowerFunctionDeclaration(st, s))
    decreases s, 0
  {
    var argTypes := TypeOfAll(s.arguments);
    var retType := TypeOf(s.returnType);
    if argTypes.Ok? && retType.Ok? {
      var f := |st.functions|;
      var entry := |st.blocks|;
      var fn := Function(s.name, retType.value, argTypes.value, InternalLinkage);
      var s2 := FunctionEntry(st, fn);
      EnterFunction(st, fn);
      ParametersGrows(s2, f, entry, s.arguments);
      var g3 := LowerParameters(s2, f, entry, s.arguments);
      if g3.Done? {
        BlockGrows(g3.st, s.body);
        var g4 := LowerBlock(g3.st, s.body);
        if g4.Done? {
          GrowsTrans(s2, g3.st, g4.st);
          EmitCurGrows(s2, g4.st, Ret(g4.st.returnValue));
          LeaveFunction(st, s2, Emit(g4.st, Cur(g4.st), Ret(g4.st.returnValue)), entry);
        }
      }
    }
  }

  /** The blocks and the branch an if creates before its then-branch. */
  lemma IfOpens(s1: State, condV: Value)
    requires Valid(s1)
    ensures var e := IfEntry(s1, condV);
            Valid(e) && Valid(Pop(e)) && Grows(s1, Pop(e)) &&
            e == Push(Pop(e), |s1.blocks|) && |Pop(e).blocks| == |s1.blocks| + 3
  {
    var c := Cur(s1);
    var (s2, cmp) := CompareNonZero(s1, c, condV);
    GrowsRefl(s1);
    EmitGrows(s1, s1, c, ICmpNE0(condV));
    var n := |s2.blocks|;
    var a1 := AddBlock(s2, "then", ParentOf(s1, c));
    AddBlockGrows(s1, s2, "then", ParentOf(s1, c));
    var a2 := AddBlock(a1, "else", None);
    AddBlockGrows(s1, a1, "else", None);
    var s3 := AddBlock(a2, "ifcont", None);
    AddBlockGrows(s1, a2, "ifcont", None);
    var x := Emit(s3, c, CondBr(cmp, n, n + 1));
    EmitGrows(s1, s3, c, CondBr(cmp, n, n + 1));
    PopPush(x, n);
  }

  /** The branch out of the then-block and the else block joining function `f`. */
  lemma ThenExitGrows(s1: State, s5: State, n: nat, f: nat)
    requires Valid(s1) && Valid(Pop(s5)) && Grows(s1, Pop(s5)) && |s1.blocks| == n && n + 2 < |Pop(s5).blocks|
    requires f < |s1.functions|
    ensures Valid(ThenExit(s5, n, f)) && Grows(s1, ThenExit(s5, n, f)) && |ThenExit(s5, n, f).blocks| == |Pop(s5).blocks|
  {
    EmitGrows(s1, Pop(s5), n, Br(n + 2));
    SetParentGrows(s1, Emit(Pop(s5), n, Br(n + 2)), n + 1, f);
  }

  /** The branch out of the else block, and ifcont joining function `f` as the new current block. */
  lemma IfJoinGrows(s1: State, s8: State, n: nat, f: nat)
    requires Valid(s1) && Valid(s8) && Grows(s1, s8) && |s1.blocks| == n && n + 2 < |s8.blocks|
    requires f < |s1.functions|
    ensures Valid(IfJoin(s8, n, f)) && Grows(s1, IfJoin(s8, n, f))
  {
    var s9 := Emit(s8, n + 1, Br(n + 2));
    EmitGrows(s1, s8, n + 1, Br(n + 2));
    SetParentGrows(s1, s9, n + 2, f);
    PushGrows(s1, SetParent(s9, n + 2, f), n + 2);
  }

  lemma {:induction false} IfGrows(st: State, s: Stmt)
    requires Valid(st) && s.IfStatement?
    ensures GrowsTo(st, LowerIf(st, s))
    decreases s, 1
  {
    ExprGrows(st, s.cond);
    var g1 := LowerExpr(st, s.cond);
    if g1.Done? {
      BranchesGrow(g1.st, g1.value, s);
      var g := LowerBranches(g1.st, g1.value, s);
      if g.Done? {
        GrowsTrans(st, g1.st, g.st);
      }
    }
  }

  lemma {:induction false} BranchesGrow(s1: State, condV: Value, s: Stmt)
    requires Valid(s1) && s.IfStatement?
    ensures GrowsTo(s1, LowerBranches(s1, condV, s))
    decreases s, 0
  {
    var n := |s1.blocks|;
    var parent := ParentOf(s1, Cur(s1));
    IfOpens(s1, condV);
    var e := IfEntry(s1, condV);
    BlockGrows(e, s.thenBlock);
    var g5 := LowerBlock(e, s.thenBlock);
    if g5.Done? && parent.Some? {
      RoundGrows(s1, Pop(e), n, g5.st);
      ElseAndJoinGrows(s1, g5.st, n, parent.value, s.elseBlock);
    }
  }

  lemma {:induction false} ElseAndJoinGrows(s1: State, s5: State, n: nat, f: nat, elseBlock: Option<Block>)
    requires Valid(s1) && Valid(Pop(s5)) && Grows(s1, Pop(s5)) && |s1.blocks| == n && n + 2 < |Pop(s5).blocks|
    requires f < |s1.functions|
    ensures GrowsTo(s1, LowerElseAndJoin(s5, n, f, elseBlock))
    decreases elseBlock, 1
  {
    ThenExitGrows(s1, s5, n, f);
    var s7 := ThenExit(s5, n, f);
    ElseAround(s7, n + 1, elseBlock);
    var g8 := LowerElse(s7, n + 1, elseBlock);
    if g8.Done? {
      AroundGrows(s1, s7, n + 1, g8.st);
      IfJoinGrows(s1, g8.st, n, f);
    }
  }

  lemma {:induction false} ElseAround(st: State, elseBB: nat, elseBlock: Option<Block>)
    requires Valid(st) && elseBB < |st.blocks|
    ensures var g := LowerElse(st, elseBB, elseBlock);
            g.Done? ==> Valid(g.st) && GrowsAround(st, elseBB, g.st)
    decreases elseBlock, 0
  {
    match elseBlock
    case None => AroundRefl(st, elseBB);
    case Some(b) =>
      BlockGrows(Push(st, elseBB), b);
      var g := LowerBlock(Push(st, elseBB), b);
      if g.Done? {
        PushPopAround(st, elseBB, g.st);
      }
  }

  /** The blocks and the branch a while creates before its condition. */
  lemma WhileOpens(st: State)
    requires Valid(st)
    ensures var e := WhileEntry(st);
            Valid(e) && Valid(Pop(e)) && Grows(st, Pop(e)) &&
            e == Push(Pop(e), |st.blocks|) && |Pop(e).blocks| == |st.blocks| + 3
  {
    var c := Cur(st);
    var n := |st.blocks|;
    GrowsRefl(st);
    var a1 := AddBlock(st, "loopCond", ParentOf(st, c));
    AddBlockGrows(st, st, "loopCond", ParentOf(st, c));
    var a2 := AddBlock(a1, "loop", None);
    AddBlockGrows(st, a1, "loop", None);
    var s1 := AddBlock(a2, "whilecont", None);
    AddBlockGrows(st, a2, "whilecont", None);
    EmitGrows(st, s1, c, Br(n));
    PopPush(Emit(s1, c, Br(n)), n);
  }

  /** The comparison and conditional branch at the end of loopCond, before the body. */
  lemma LoopOpens(st: State, s3: State, n: nat, condV: Value)
    requires Valid(st) && Valid(Pop(s3)) && Grows(st, Pop(s3)) && |st.blocks| == n && n + 2 < |Pop(s3).blocks|
    ensures var l := LoopEntry(s3, n, condV);
            Valid(l) && Valid(Pop(l)) && Grows(st, Pop(l)) &&
            l == Push(Pop(l), n + 1) && |Pop(l).blocks| == |Pop(s3).blocks|
  {
    var (s4, cmp) := CompareNonZero(Pop(s3), n, condV);
    EmitGrows(st, Pop(s3), n, ICmpNE0(condV));
    EmitGrows(st, s4, n, CondBr(cmp, n + 1, n + 2));
    PopPush(Emit(s4, n, CondBr(cmp, n + 1, n + 2)), n + 1);
  }

  /** The back edge, the loop and whilecont blocks joining function `f`, and the frame for whilecont. */
  lemma WhileExitGrows(st: State, s6: State, n: nat, f: nat)
    requires Valid(st) && Valid(Pop(s6)) && Grows(st, Pop(s6)) && |st.blocks| == n && n + 2 < |Pop(s6).blocks|
    requires f < |st.functions|
    ensures Valid(WhileExit(s6, n, f)) && Grows(st, WhileExit(s6, n, f))
  {
    var s7 := Emit(Pop(s6), n + 1, Br(n));
    EmitGrows(st, Pop(s6), n + 1, Br(n));
    SetParentGrows(st, s7, n + 1, f);
    SetParentGrows(st, SetParent(s7, n + 1, f), n + 2, f);
    PushGrows(st, SetParent(SetParent(s7, n + 1, f), n + 2, f), n + 2);
  }

  lemma {:induction false} WhileGrows(st: State, s: Stmt)
    requires Valid(st) && s.WhileStatement?
    ensures GrowsTo(st, LowerWhile(st, s))
    decreases s, 1
  {
    var n := |st.blocks|;
    WhileOpens(st);
    var e := WhileEntry(st);
    ExprGrows(e, s.loopCond);
    var g3 := LowerExpr(e, s.loopCond);
    if g3.Done? {
      RoundGrows(st, Pop(e), n, g3.st);
      LoopBodyGrows(st, g3.st, n, ParentOf(st, Cur(st)), g3.value, s);
    }
  }

  lemma {:induction false} LoopBodyGrows(st: State, s3: State, n: nat, parent: Option<nat>, condV: Value, s: Stmt)
    requires Valid(st) && Valid(Pop(s3)) && Grows(st, Pop(s3)) && |st.blocks| == n && n + 2 < |Pop(s3).blocks|
    requires parent.Some? ==> parent.value < |st.functions|
    requires s.WhileStatement?
    ensures GrowsTo(st, LowerLoopBody(s3, n, parent, condV, s))
    decreases s, 0
  {
    LoopOpens(st, s3, n, condV);
    var l := LoopEntry(s3, n, condV);
    BlockGrows(l, s.loopBody);
    var g6 := LowerBlock(l, s.loopBody);
    if g6.Done? && parent.Some? {
      RoundGrows(st, Pop(l), n + 1, g6.st);
      WhileExitGrows(st, g6.st, n, parent.value);
    }
  }

  // ---- Whole program ----

  /**
   * generateCode leaves the frame stack as it found it, leaves every block
   * it found untouched, adds at least `main` and its entry block, and from
   * a valid state is a growth of it.
   */
  lemma ProgramKeepsFrames(st: State, root: Block)
    requires Wired(st)
    ensures var g := LowerProgram(st, root);
            g.Done? ==> Wired(g.st) && g.st.frames == st.frames &&
                        |st.blocks| < |g.st.blocks| && st.functions + [MainFunction()] <= g.st.functions &&
                        (forall b :: 0 <= b < |st.blocks| ==> g.st.blocks[b] == st.blocks[b]) &&
                        (Valid(st) ==> Grows(st, g.st))
  {
    var entry := |st.blocks|;
    var s2 := FunctionEntry(st, MainFunction());
    EnterFunction(st, MainFunction());
    BlockGrows(s2, root);
    var g := LowerBlock(s2, root);
    if g.Done? {
      EmitCurGrows(s2, g.st, Ret(ConstInt(Int32, 0)));
      LeaveFunction(st, s2, Emit(g.st, Cur(g.st), Ret(ConstInt(Int32, 0))), entry);
    }
  }
}
