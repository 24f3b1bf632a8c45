/**
 * The block structure NIfStatement::codeGen and NWhileStatement::codeGen
 * build, for a block-free condition and straight-line branches: which
 * blocks are created, which function they join, which branches end them
 * and which frame stays behind; and what happens when the block such a
 * statement starts in belongs to no function.
 */
module ControlFlow {
  import opened Ast
  import opened Ir
  import opened Context
  import opened Lowering
  import opened Invariants
  import opened Properties
  import opened Statements
  import opened Shapes

  // ---- The comparison with zero ----

  /** CompareNonZero appends the reference comparison code to block `b` and yields its value. */
  lemma CompareAppends(st: State, b: nat, v: Value)
    requires b < |st.blocks|
    ensures var cmp := Compared(b, |st.blocks[b].insts|, v);
            var r := CompareNonZero(st, b, v);
            |r.0.blocks| == |st.blocks| && r.0.frames == st.frames && r.0.functions == st.functions &&
            r.0.blocks[b] == st.blocks[b].(insts := st.blocks[b].insts + cmp.0) &&
            (forall j :: 0 <= j < |st.blocks| && j != b ==> r.0.blocks[j] == st.blocks[j]) &&
            r.1 == cmp.1
  {
    if v.ConstInt? {
      assert st.blocks[b].insts + [] == st.blocks[b].insts;
    }
  }

  // ---- A straight-line branch under its own frame ----

  lemma StraightRound(t: State, n: nat, b: Block)
    requires Valid(t) && n < |t.blocks| && Straight(b.statements)
    ensures var g := LowerBlock(Push(t, n), b);
            g.Done? ==> |g.st.frames| > 0 && PlainRound(t, n, Pop(g.st))
  {
    var x := Push(t, n);
    StraightStaysInBlock(x, b.statements);
    var g := LowerBlock(x, b);
    if g.Done? {
      var h := |t.frames|;
      assert x.frames[..h] == t.frames;
      assert Pop(g.st).frames == g.st.frames[..h];
    }
  }

  /** Plain code closed by one terminator is well terminated. */
  lemma PlainThenTerminator(b: BasicBlock, t: Inst)
    requires Plain(b.insts) && IsTerminator(t)
    ensures WellTerminated(b.(insts := b.insts + [t]))
  {
  }

  // ---- If ----

  /**
   * IfEntry: the comparison and the conditional branch appended to the
   * current block `c`, three new blocks, then in the function of `c`, and a
   * frame for then on top of the frames there were.
   */
  lemma IfEntryShape(s1: State, v: Value)
    requires Valid(s1)
    ensures var c, n := Cur(s1), |s1.blocks|;
            var cmp := Compared(c, |s1.blocks[c].insts|, v);
            var t := Pop(IfEntry(s1, v));
            IfEntry(s1, v) == Push(t, n) && Valid(t) &&
            t.frames == s1.frames && t.functions == s1.functions && |t.blocks| == n + 3 &&
            (forall b :: 0 <= b < n && b != c ==> t.blocks[b] == s1.blocks[b]) &&
            t.blocks[c] == s1.blocks[c].(insts := s1.blocks[c].insts + cmp.0 + [CondBr(cmp.1, n, n + 1)]) &&
            t.blocks[n] == BasicBlock("then", s1.blocks[c].parent, []) &&
            t.blocks[n + 1] == BasicBlock("else", None, []) &&
            t.blocks[n + 2] == BasicBlock("ifcont", None, [])
  {
    var c, n := Cur(s1), |s1.blocks|;
    CompareAppends(s1, c, v);
    var r := CompareNonZero(s1, c, v);
    var s3 := AddBlock(AddBlock(AddBlock(r.0, "then", ParentOf(s1, c)), "else", None), "ifcont", None);
    PopPush(Emit(s3, c, CondBr(r.1, n, n + 1)), n);
  }

  /** IfEntry after a block-free condition, then a straight then-branch that left `z` once its frame was popped. */
  lemma ThenShape(st: State, code: seq<Inst>, v: Value, z: State)
    requires Valid(st) && ParentOf(st, Cur(st)).Some?
    requires var t := Pop(IfEntry(AppendCur(st, code), v)); |st.blocks| < |t.blocks| && PlainRound(t, |st.blocks|, z)
    ensures ThenDone(st, code, v, ParentOf(st, Cur(st)).value, z)
  {
    var s1 := AppendCur(st, code);
    assert Valid(s1);
    IfEntryShape(s1, v);
  }

  /** ThenExit: the then block closed by its branch to ifcont, and else joining `f`. */
  lemma ThenExitShape(st: State, code: seq<Inst>, v: Value, f: nat, s5: State)
    requires Valid(st) && |s5.frames| > 0 && ThenDone(st, code, v, f, Pop(s5))
    ensures ElseDone(st, code, v, f, true, ThenExit(s5, |st.blocks|, f))
  {
    var n := |st.blocks|;
    var z5 := Pop(s5);
    PlainThenTerminator(z5.blocks[n], Br(n + 2));
  }

  /** The else-branch, when there is one, under its own frame for the else block. */
  lemma ElseShape(st: State, code: seq<Inst>, v: Value, f: nat, t6: State, elseBlock: Option<Block>)
    requires Valid(st) && f < |st.functions| && ElseDone(st, code, v, f, true, t6)
    requires elseBlock.Some? ==> Straight(elseBlock.value.statements)
    ensures var g := LowerElse(t6, |st.blocks| + 1, elseBlock);
            g.Done? ==> ElseDone(st, code, v, f, elseBlock.None?, g.st)
  {
    var n := |st.blocks|;
    var g8 := LowerElse(t6, n + 1, elseBlock);
    if g8.Done? && elseBlock.Some? {
      assert Valid(t6);
      StraightRound(t6, n + 1, elseBlock.value);
      assert g8.st.blocks[n + 1].insts[0..] == g8.st.blocks[n + 1].insts;
    }
  }

  /** The join: ifcont enters `f` and gets the frame that stays. */
  lemma JoinShape(st: State, code: seq<Inst>, v: Value, f: nat, noElse: bool, s8: State)
    requires Valid(st) && ElseDone(st, code, v, f, noElse, s8)
    ensures IfShaped(st, code, v, f, noElse, IfJoin(s8, |st.blocks|, f), FunctionValue(f))
  {
    var n := |st.blocks|;
    PlainThenTerminator(s8.blocks[n + 1], Br(n + 2));
  }

  /** The else-branch and the join, from the state `ThenDone` describes. */
  lemma ElseAndJoinShape(st: State, code: seq<Inst>, v: Value, f: nat, s5: State, elseBlock: Option<Block>)
    requires Valid(st) && f < |st.functions| && |s5.frames| > 0 && ThenDone(st, code, v, f, Pop(s5))
    requires elseBlock.Some? ==> Straight(elseBlock.value.statements)
    ensures var g := LowerElseAndJoin(s5, |st.blocks|, f, elseBlock);
            g.Done? ==> IfShaped(st, code, v, f, elseBlock.None?, g.st, g.value)
  {
    var n := |st.blocks|;
    ThenExitShape(st, code, v, f, s5);
    ElseShape(st, code, v, f, ThenExit(s5, n, f), elseBlock);
    var g8 := LowerElse(ThenExit(s5, n, f), n + 1, elseBlock);
    if g8.Done? {
      assert LowerElseAndJoin(s5, n, f, elseBlock) == Done(IfJoin(g8.st, n, f), FunctionValue(f));
      JoinShape(st, code, v, f, elseBlock.None?, g8.st);
    } else {
      assert LowerElseAndJoin(s5, n, f, elseBlock).Fail?;
    }
  }

  /** The four ways an if can end once its condition is lowered. */
  lemma BranchesCases(s1: State, condV: Value, s: Stmt)
    requires s.IfStatement?
    ensures var g5 := LowerBlock(IfEntry(s1, condV), s.thenBlock);
            var parent := ParentOf(s1, Cur(s1));
            LowerBranches(s1, condV, s) ==
              if condV == NullValue then Fail(NullOperand)
              else if g5.Fail? then Fail(g5.error)
              else if parent.None? then Fail(NoParentFunction)
              else LowerElseAndJoin(g5.st, |s1.blocks|, parent.value, s.elseBlock)
  {
  }

  /** An if lowers its condition first, and what follows works in the state the condition left. */
  lemma IfCases(st: State, s: Stmt)
    requires s.IfStatement?
    ensures var g1 := LowerExpr(st, s.cond);
            LowerIf(st, s) == if g1.Fail? then Fail(g1.error) else LowerBranches(g1.st, g1.value, s)
  {
  }

  /** A block-free condition that lowers leaves the current block with its code appended. */
  lemma FlatCondition(st: State, cond: Expr)
    requires Valid(st) && Flat(cond)
    ensures var fl := Flatten(st.frames, st.functions, Cur(st), |st.blocks[Cur(st)].insts|, cond);
            var g1 := LowerExpr(st, cond);
            (fl.Err? ==> g1 == Fail(fl.error)) &&
            (fl.Ok? ==> g1 == Done(AppendCur(st, fl.value.0), fl.value.1))
  {
    FlatLowering(st, cond);
  }

  /** A failing block-free condition fails the if with its error (codegen.cpp:209). */
  lemma IfConditionFails(st: State, s: Stmt)
    requires Valid(st) && s.IfStatement? && Flat(s.cond)
    ensures var fl := Flatten(st.frames, st.functions, Cur(st), |st.blocks[Cur(st)].insts|, s.cond);
            fl.Err? ==> LowerIf(st, s) == Fail(fl.error)
  {
    FlatCondition(st, s.cond);
    IfCases(st, s);
  }

  /**
   * An if in a block that belongs to no function always fails: the then
   * block is created in no function, and once the then-branch is lowered
   * the source dereferences the null function (codegen.cpp:215, 231).
   */
  lemma IfOutsideFunctionFails(st: State, s: Stmt)
    requires Valid(st) && s.IfStatement? && Flat(s.cond) && ParentOf(st, Cur(st)).None?
    ensures LowerIf(st, s).Fail?
  {
    var c := Cur(st);
    FlatCondition(st, s.cond);
    IfCases(st, s);
    var fl := Flatten(st.frames, st.functions, c, |st.blocks[c].insts|, s.cond);
    if fl.Ok? {
      var s1 := AppendCur(st, fl.value.0);
      assert Cur(s1) == c && ParentOf(s1, c).None?;
      BranchesCases(s1, fl.value.1, s);
      assert LowerBranches(s1, fl.value.1, s).Fail?;
    }
  }

  /** The if's result, for a condition that lowers and a current block in function `f`. */
  lemma IfSteps(st: State, s: Stmt)
    requires Valid(st) && s.IfStatement? && Flat(s.cond) && ParentOf(st, Cur(st)).Some?
    requires Flatten(st.frames, st.functions, Cur(st), |st.blocks[Cur(st)].insts|, s.cond).Ok?
    ensures var fl := Flatten(st.frames, st.functions, Cur(st), |st.blocks[Cur(st)].insts|, s.cond);
            var s1 := AppendCur(st, fl.value.0);
            var g5 := LowerBlock(IfEntry(s1, fl.value.1), s.thenBlock);
            LowerIf(st, s) ==
              if g5.Fail? then Fail(g5.error)
              else LowerElseAndJoin(g5.st, |st.blocks|, ParentOf(st, Cur(st)).value, s.elseBlock)
  {
    var c := Cur(st);
    FlatCondition(st, s.cond);
    IfCases(st, s);
    var fl := Flatten(st.frames, st.functions, c, |st.blocks[c].insts|, s.cond);
    var s1 := AppendCur(st, fl.value.0);
    assert LowerIf(st, s) == LowerBranches(s1, fl.value.1, s);
    assert Cur(s1) == c && ParentOf(s1, c) == ParentOf(st, c) && |s1.blocks| == |st.blocks|;
    BranchesCases(s1, fl.value.1, s);
  }

  /** The if's shape once its condition lowers in a block of function `f`. */
  lemma IfInFunction(st: State, s: Stmt)
    requires Valid(st) && s.IfStatement? && Flat(s.cond) && Straight(s.thenBlock.statements)
    requires s.elseBlock.Some? ==> Straight(s.elseBlock.value.statements)
    requires ParentOf(st, Cur(st)).Some?
    requires Flatten(st.frames, st.functions, Cur(st), |st.blocks[Cur(st)].insts|, s.cond).Ok?
    ensures var fl := Flatten(st.frames, st.functions, Cur(st), |st.blocks[Cur(st)].insts|, s.cond);
            var g := LowerIf(st, s);
            g.Done? ==> IfShaped(st, fl.value.0, fl.value.1, ParentOf(st, Cur(st)).value, s.elseBlock.None?, g.st, g.value)
  {
    var c, n := Cur(st), |st.blocks|;
    var fl := Flatten(st.frames, st.functions, c, |st.blocks[c].insts|, s.cond);
    var code, v, f := fl.value.0, fl.value.1, ParentOf(st, c).value;
    var s1 := AppendCur(st, code);
    IfSteps(st, s);
    var g5 := LowerBlock(IfEntry(s1, v), s.thenBlock);
    if g5.Done? {
      assert Valid(s1);
      IfEntryShape(s1, v);
      StraightRound(Pop(IfEntry(s1, v)), n, s.thenBlock);
      ThenShape(st, code, v, Pop(g5.st));
      ElseAndJoinShape(st, code, v, f, g5.st, s.elseBlock);
    }
  }

  /**
   * NIfStatement::codeGen (codegen.cpp:206-248) on a block-free condition
   * and straight-line branches: a successful if has the shape `IfShaped`
   * states, in the function of the block it started in.
   */
  lemma IfStraight(st: State, s: Stmt)
    requires Valid(st) && s.IfStatement? && Flat(s.cond) && Straight(s.thenBlock.statements)
    requires s.elseBlock.Some? ==> Straight(s.elseBlock.value.statements)
    ensures var c := Cur(st);
            var fl := Flatten(st.frames, st.functions, c, |st.blocks[c].insts|, s.cond);
            var g := LowerIf(st, s);
            g.Done? ==> fl.Ok? && ParentOf(st, c).Some? &&
                        IfShaped(st, fl.value.0, fl.value.1, ParentOf(st, c).value, s.elseBlock.None?, g.st, g.value)
  {
    var c := Cur(st);
    var fl := Flatten(st.frames, st.functions, c, |st.blocks[c].insts|, s.cond);
    IfConditionFails(st, s);
    if ParentOf(st, c).None? {
      IfOutsideFunctionFails(st, s);
    } else if fl.Ok? {
      IfInFunction(st, s);
    }
  }

  // ---- While ----

  /** A while lowers its condition under the frame for loopCond, and what follows works in the state it left. */
  lemma WhileCases(st: State, s: Stmt)
    requires s.WhileStatement?
    ensures var g3 := LowerExpr(WhileEntry(st), s.loopCond);
            LowerWhile(st, s) ==
              if g3.Fail? then Fail(g3.error)
              else LowerLoopBody(g3.st, |st.blocks|, ParentOf(st, Cur(st)), g3.value, s)
  {
  }

  /** The four ways a while can end once its condition is lowered. */
  lemma LoopBodyCases(s3: State, n: nat, parent: Option<nat>, condV: Value, s: Stmt)
    requires s.WhileStatement?
    ensures var g6 := LowerBlock(LoopEntry(s3, n, condV), s.loopBody);
            LowerLoopBody(s3, n, parent, condV, s) ==
              if condV == NullValue then Fail(NullOperand)
              else if g6.Fail? then Fail(g6.error)
              else if parent.None? then Fail(NoParentFunction)
              else Done(WhileExit(g6.st, n, parent.value), FunctionValue(parent.value))
  {
  }

  /**
   * A while in a block that belongs to no function always fails: its
   * blocks are created in no function, and once the body is lowered the
   * source dereferences the null function (codegen.cpp:256, 281).
   */
  lemma WhileOutsideFunctionFails(st: State, s: Stmt)
    requires s.WhileStatement? && ParentOf(st, Cur(st)).None?
    ensures LowerWhile(st, s).Fail?
  {
    WhileCases(st, s);
    var g3 := LowerExpr(WhileEntry(st), s.loopCond);
    if g3.Done? {
      LoopBodyCases(g3.st, |st.blocks|, None, g3.value, s);
    }
  }

  /**
   * WhileEntry: three new blocks, loopCond in the function of the current
   * block `c`, the branch to loopCond at the end of `c`, and a frame for
   * loopCond on top of the frames there were.
   */
  lemma WhileEntryShape(st: State)
    requires Valid(st)
    ensures var c, n := Cur(st), |st.blocks|;
            var e := WhileEntry(st);
            Valid(e) && Cur(e) == n && e.frames == st.frames + [Frame(n, map[])] &&
            e.functions == st.functions && |e.blocks| == n + 3 &&
            (forall b :: 0 <= b < n && b != c ==> e.blocks[b] == st.blocks[b]) &&
            e.blocks[c] == st.blocks[c].(insts := st.blocks[c].insts + [Br(n)]) &&
            e.blocks[n] == BasicBlock("loopCond", ParentOf(st, c), []) &&
            e.blocks[n + 1] == BasicBlock("loop", None, []) &&
            e.blocks[n + 2] == BasicBlock("whilecont", None, [])
  {
  }

  /**
   * The condition of a while is lowered into the empty loopCond block and
   * sees the variables of the block the while is in.
   */
  lemma WhileCondition(st: State, cond: Expr)
    requires Valid(st) && Flat(cond)
    ensures var fl := Flatten(st.frames, st.functions, |st.blocks|, 0, cond);
            var g3 := LowerExpr(WhileEntry(st), cond);
            (fl.Err? ==> g3 == Fail(fl.error)) &&
            (fl.Ok? ==> g3 == Done(AppendCur(WhileEntry(st), fl.value.0), fl.value.1))
  {
    var n := |st.blocks|;
    WhileEntryShape(st);
    FlatCondition(WhileEntry(st), cond);
    FlattenEmptyTop(st.frames, st.functions, n, 0, n, cond);
  }

  /** A failing block-free condition fails the while with its error (codegen.cpp:267). */
  lemma WhileConditionFails(st: State, s: Stmt)
    requires Valid(st) && s.WhileStatement? && Flat(s.loopCond)
    ensures var fl := Flatten(st.frames, st.functions, |st.blocks|, 0, s.loopCond);
            fl.Err? ==> LowerWhile(st, s) == Fail(fl.error)
  {
    WhileCondition(st, s.loopCond);
    WhileCases(st, s);
  }

  /** LoopEntry after a condition with code `code` and value `v`: `LoopReady` under a frame for loop. */
  lemma LoopEntryShape(st: State, code: seq<Inst>, v: Value)
    requires Valid(st)
    ensures var n := |st.blocks|;
            var x := LoopEntry(AppendCur(WhileEntry(st), code), n, v);
            x == Push(Pop(x), n + 1) && Valid(Pop(x)) && LoopReady(st, code, v, Pop(x))
  {
    var c, n := Cur(st), |st.blocks|;
    WhileEntryShape(st);
    var s3 := AppendCur(WhileEntry(st), code);
    var p3 := Pop(s3);
    assert p3.frames == st.frames by {
      assert (st.frames + [Frame(n, map[])])[..|st.frames|] == st.frames;
    }
    assert p3.blocks[n].insts == code;
    CompareAppends(p3, n, v);
    var r := CompareNonZero(p3, n, v);
    PopPush(Emit(r.0, n, CondBr(r.1, n + 1, n + 2)), n + 1);
  }

  /** WhileExit after a straight body: the back edge, and loop and whilecont joining `f`. */
  lemma WhileExitShape(st: State, code: seq<Inst>, v: Value, f: nat, t: State, s6: State)
    requires Valid(st) && Plain(code) && ParentOf(st, Cur(st)) == Some(f)
    requires LoopReady(st, code, v, t) && |s6.frames| > 0 && PlainRound(t, |st.blocks| + 1, Pop(s6))
    ensures WhileShaped(st, code, v, f, WhileExit(s6, |st.blocks|, f), FunctionValue(f))
  {
    var n := |st.blocks|;
    var cmp := Compared(n, |code|, v);
    var z6 := Pop(s6);
    assert Plain(code + cmp.0);
    PlainThenTerminator(BasicBlock("loopCond", Some(f), code + cmp.0), CondBr(cmp.1, n + 1, n + 2));
    assert z6.blocks[n + 1].insts[0..] == z6.blocks[n + 1].insts;
    PlainThenTerminator(z6.blocks[n + 1], Br(n));
  }

  /** The while's result, for a condition that lowers and a current block in function `f`. */
  lemma WhileSteps(st: State, s: Stmt)
    requires Valid(st) && s.WhileStatement? && Flat(s.loopCond) && ParentOf(st, Cur(st)).Some?
    requires Flatten(st.frames, st.functions, |st.blocks|, 0, s.loopCond).Ok?
    ensures var fl := Flatten(st.frames, st.functions, |st.blocks|, 0, s.loopCond);
            var n := |st.blocks|;
            var g6 := LowerBlock(LoopEntry(AppendCur(WhileEntry(st), fl.value.0), n, fl.value.1), s.loopBody);
            var f := ParentOf(st, Cur(st)).value;
            LowerWhile(st, s) == if g6.Fail? then Fail(g6.error) else Done(WhileExit(g6.st, n, f), FunctionValue(f))
  {
    var n := |st.blocks|;
    var fl := Flatten(st.frames, st.functions, n, 0, s.loopCond);
    var s3 := AppendCur(WhileEntry(st), fl.value.0);
    var parent := ParentOf(st, Cur(st));
    WhileCondition(st, s.loopCond);
    WhileCases(st, s);
    assert LowerWhile(st, s) == LowerLoopBody(s3, n, parent, fl.value.1, s);
    LoopBodyCases(s3, n, parent, fl.value.1, s);
  }

  /** The state a while's body is lowered in: a frame for loop on top of a valid state with the loop's blocks. */
  lemma LoopEntryValid(st: State, code: seq<Inst>, v: Value)
    requires Valid(st)
    ensures var n := |st.blocks|;
            var x := LoopEntry(AppendCur(WhileEntry(st), code), n, v);
            x == Push(Pop(x), n + 1) && Valid(Pop(x)) && n + 1 < |Pop(x).blocks|
  {
    LoopEntryShape(st, code, v);
  }

  /** A straight loop body lowered in the fresh `loop` block stays inside it. */
  lemma LoopBodyRound(st: State, code: seq<Inst>, v: Value, b: Block)
    requires Valid(st) && Straight(b.statements)
    ensures var n := |st.blocks|;
            var x := LoopEntry(AppendCur(WhileEntry(st), code), n, v);
            var g6 := LowerBlock(x, b);
            g6.Done? ==> |g6.st.frames| > 0 && n + 1 < |Pop(x).blocks| && PlainRound(Pop(x), n + 1, Pop(g6.st))
  {
    var n := |st.blocks|;
    var x := LoopEntry(AppendCur(WhileEntry(st), code), n, v);
    LoopEntryValid(st, code, v);
    StraightRound(Pop(x), n + 1, b);
  }

  /** LoopEntry, a straight body that left `s6`, and WhileExit. */
  lemma WhileBodyShape(st: State, code: seq<Inst>, v: Value, f: nat, s6: State)
    requires Valid(st) && Plain(code) && ParentOf(st, Cur(st)) == Some(f)
    requires var n := |st.blocks|;
             var t := Pop(LoopEntry(AppendCur(WhileEntry(st), code), n, v));
             |s6.frames| > 0 && n + 1 < |t.blocks| && PlainRound(t, n + 1, Pop(s6))
    ensures WhileShaped(st, code, v, f, WhileExit(s6, |st.blocks|, f), FunctionValue(f))
  {
    var n := |st.blocks|;
    LoopEntryShape(st, code, v);
    WhileExitShape(st, code, v, f, Pop(LoopEntry(AppendCur(WhileEntry(st), code), n, v)), s6);
  }

  /** The while's shape once its condition lowers in a block of function `f`. */
  lemma WhileInFunction(st: State, s: Stmt)
    requires Valid(st) && s.WhileStatement? && Flat(s.loopCond) && Straight(s.loopBody.statements)
    requires ParentOf(st, Cur(st)).Some?
    requires Flatten(st.frames, st.functions, |st.blocks|, 0, s.loopCond).Ok?
    ensures var fl := Flatten(st.frames, st.functions, |st.blocks|, 0, s.loopCond);
            var g := LowerWhile(st, s);
            g.Done? ==> WhileShaped(st, fl.value.0, fl.value.1, ParentOf(st, Cur(st)).value, g.st, g.value)
  {
    var c, n := Cur(st), |st.blocks|;
    var fl := Flatten(st.frames, st.functions, n, 0, s.loopCond);
    var code, v, f := fl.value.0, fl.value.1, ParentOf(st, c).value;
    WhileSteps(st, s);
    var x := LoopEntry(AppendCur(WhileEntry(st), code), n, v);
    var g6 := LowerBlock(x, s.loopBody);
    if g6.Done? {
      LoopBodyRound(st, code, v, s.loopBody);
      FlattenPlain(st.frames, st.functions, n, 0, s.loopCond);
      WhileBodyShape(st, code, v, f, g6.st);
    }
  }

  /**
   * NWhileStatement::codeGen (codegen.cpp:250-287) on a block-free
   * condition and a straight-line body: a successful while has the shape
   * `WhileShaped` states, in the function of the block it started in.
   */
  lemma WhileStraight(st: State, s: Stmt)
    requires Valid(st) && s.WhileStatement? && Flat(s.loopCond) && Straight(s.loopBody.statements)
    ensures var fl := Flatten(st.frames, st.functions, |st.blocks|, 0, s.loopCond);
            var g := LowerWhile(st, s);
            g.Done? ==> fl.Ok? && ParentOf(st, Cur(st)).Some? &&
                        WhileShaped(st, fl.value.0, fl.value.1, ParentOf(st, Cur(st)).value, g.st, g.value)
  {
    var fl := Flatten(st.frames, st.functions, |st.blocks|, 0, s.loopCond);
    WhileConditionFails(st, s);
    if ParentOf(st, Cur(st)).None? {
      WhileOutsideFunctionFails(st, s);
    } else if fl.Ok? {
      WhileInFunction(st, s);
    }
  }

  // ---- Control statements in a loop body ----

  /** An if with a block-free condition, or any while: the statements that need the parent function of the current block. */
  predicate NeedsFunction(s: Stmt) {
    (s.IfStatement? && Flat(s.cond)) || s.WhileStatement?
  }

  /** A statement that needs a function fails in a block that has none. */
  lemma OrphanStmtFails(y: State, t: Stmt)
    requires Valid(y) && ParentOf(y, Cur(y)).None? && NeedsFunction(t)
    ensures LowerStmt(y, t).Fail?
  {
    if t.IfStatement? {
      IfOutsideFunctionFails(y, t);
    } else {
      WhileOutsideFunctionFails(y, t);
    }
  }

  /**
   * Statements lowered in a block with no function fail once they reach,
   * after straight-line statements, one that needs a function.
   */
  lemma OrphanBlockFails(x: State, ss: seq<Stmt>, j: nat)
    requires Valid(x) && ParentOf(x, Cur(x)).None?
    requires j < |ss| && Straight(ss[..j]) && NeedsFunction(ss[j])
    ensures LowerStatements(x, ss).Fail?
  {
    StraightStaysInBlock(x, ss[..j]);
    var g := LowerStatements(x, ss[..j]);
    assert ss[..j + 1][..j] == ss[..j];
    if g.Done? {
      assert Cur(g.st) == Cur(x) && ParentOf(g.st, Cur(x)).None?;
      OrphanStmtFails(g.st, ss[j]);
    }
    assert LowerStatements(x, ss[..j + 1]).Fail?;
    StatementsPrefixFails(x, ss, j + 1);
  }

  /** The loop block a while's body is lowered in belongs to no function yet. */
  lemma LoopEntryOrphan(st: State, code: seq<Inst>, v: Value)
    requires Valid(st)
    ensures var x := LoopEntry(AppendCur(WhileEntry(st), code), |st.blocks|, v);
            Valid(x) && ParentOf(x, Cur(x)).None?
  {
    var n := |st.blocks|;
    LoopEntryShape(st, code, v);
    var x := LoopEntry(AppendCur(WhileEntry(st), code), n, v);
    assert Cur(x) == n + 1 && x.blocks[n + 1] == Pop(x).blocks[n + 1];
  }

  /**
   * A while whose body holds an if (with a block-free condition) or a
   * while, after straight-line statements, always fails: in the source the
   * nested statement reads the parent function of the not yet inserted
   * loop block, which is null (codegen.cpp:215, 231, 256, 268-281).
   */
  lemma ControlInLoopBodyFails(st: State, s: Stmt, j: nat)
    requires Valid(st) && s.WhileStatement? && Flat(s.loopCond)
    requires j < |s.loopBody.statements| && Straight(s.loopBody.statements[..j])
    requires NeedsFunction(s.loopBody.statements[j])
    ensures LowerWhile(st, s).Fail?
  {
    var fl := Flatten(st.frames, st.functions, |st.blocks|, 0, s.loopCond);
    WhileConditionFails(st, s);
    if ParentOf(st, Cur(st)).None? {
      WhileOutsideFunctionFails(st, s);
    } else if fl.Ok? {
      WhileSteps(st, s);
      LoopEntryOrphan(st, fl.value.0, fl.value.1);
      OrphanBlockFails(LoopEntry(AppendCur(WhileEntry(st), fl.value.0), |st.blocks|, fl.value.1), s.loopBody.statements, j);
      assert LowerBlock(LoopEntry(AppendCur(WhileEntry(st), fl.value.0), |st.blocks|, fl.value.1), s.loopBody).Fail?;
    }
  }
}
