/**
 * The block structure an if or a while leaves for any condition and any
 * branches, nested control statements included.  Each step of
 * NIfStatement::codeGen and NWhileStatement::codeGen only appends to the
 * block of its frame, so the branches that close then, else, loopCond and
 * loop are where the source puts them: in those blocks, not in the blocks
 * a nested statement left current.
 */
module Joins {
  import opened Ast
  import opened Ir
  import opened Context
  import opened Lowering
  import opened Invariants
  import opened Shapes
  import opened Properties
  import opened Statements
  import opened ControlFlow

  // ---- If ----

  /** The state after the then-branch, its frame popped, for an if started in block `c` of function `p`. */
  ghost predicate ThenLeft(c: nat, n: nat, p: Option<nat>, z: State) {
    c < n && n + 2 < |z.blocks| && EndsBranching(z, c, n, n + 1) &&
    z.blocks[n].name == "then" && z.blocks[n].parent == p &&
    z.blocks[n + 1] == BasicBlock("else", None, []) &&
    z.blocks[n + 2] == BasicBlock("ifcont", None, [])
  }

  lemma ThenEntryLeft(s1: State, condV: Value)
    requires Valid(s1)
    ensures ThenLeft(Cur(s1), |s1.blocks|, ParentOf(s1, Cur(s1)), Pop(IfEntry(s1, condV)))
  {
    IfEntryShape(s1, condV);
  }

  lemma AroundThen(c: nat, n: nat, p: Option<nat>, x: State, z: State)
    requires Valid(x) && n < |x.blocks| && ThenLeft(c, n, p, x) && GrowsAround(x, n, z)
    ensures ThenLeft(c, n, p, z)
  {
    assert z.blocks[c] == x.blocks[c];
  }

  /** Any then-branch touches no block of the if but then. */
  lemma ThenRound(s1: State, condV: Value, s: Stmt)
    requires Valid(s1) && s.IfStatement?
    ensures var g5 := LowerBlock(IfEntry(s1, condV), s.thenBlock);
            g5.Done? ==> |g5.st.frames| > 0 && Valid(Pop(g5.st)) && Grows(s1, Pop(g5.st)) &&
                         ThenLeft(Cur(s1), |s1.blocks|, ParentOf(s1, Cur(s1)), Pop(g5.st))
  {
    var n := |s1.blocks|;
    IfOpens(s1, condV);
    ThenEntryLeft(s1, condV);
    var e := IfEntry(s1, condV);
    BlockGrows(e, s.thenBlock);
    var g5 := LowerBlock(e, s.thenBlock);
    if g5.Done? {
      PushPopAround(Pop(e), n, g5.st);
      AroundThen(Cur(s1), n, ParentOf(s1, Cur(s1)), Pop(e), Pop(g5.st));
      RoundGrows(s1, Pop(e), n, g5.st);
    }
  }

  /** The state after ThenExit: then closed by its branch to ifcont, else in `f`. */
  ghost predicate ElseReady(c: nat, n: nat, f: nat, z: State) {
    c < n && n + 2 < |z.blocks| && EndsBranching(z, c, n, n + 1) &&
    z.blocks[n].name == "then" && z.blocks[n].parent == Some(f) && EndsWith(z, n, Br(n + 2)) &&
    z.blocks[n + 1] == BasicBlock("else", Some(f), []) &&
    z.blocks[n + 2] == BasicBlock("ifcont", None, [])
  }

  lemma ThenExitReady(c: nat, n: nat, f: nat, s5: State)
    requires |s5.frames| > 0 && Valid(Pop(s5)) && f < |Pop(s5).functions| && ThenLeft(c, n, Some(f), Pop(s5))
    ensures Valid(ThenExit(s5, n, f)) && ElseReady(c, n, f, ThenExit(s5, n, f))
    ensures ThenExit(s5, n, f).blocks[n] == Pop(s5).blocks[n].(insts := Pop(s5).blocks[n].insts + [Br(n + 2)])
  {
  }

  /** Whatever the else-branch appends to else, the join closes it and makes ifcont current. */
  lemma JoinAfterElse(c: nat, n: nat, f: nat, s7: State, s8: State)
    requires Valid(s7) && n + 1 < |s7.blocks| && ElseReady(c, n, f, s7) && GrowsAround(s7, n + 1, s8)
    ensures IfJoined(c, n, f, IfJoin(s8, n, f)) && IfJoin(s8, n, f).blocks[n] == s7.blocks[n]
  {
    assert s8.blocks[c] == s7.blocks[c] && s8.blocks[n] == s7.blocks[n];
  }

  /** The two ways an if can end once its then-branch is lowered. */
  lemma ElseAndJoinCases(s5: State, n: nat, f: nat, elseBlock: Option<Block>)
    ensures var g8 := LowerElse(ThenExit(s5, n, f), n + 1, elseBlock);
            LowerElseAndJoin(s5, n, f, elseBlock) ==
              if g8.Fail? then Fail(g8.error) else Done(IfJoin(g8.st, n, f), FunctionValue(f))
  {
  }

  /** Any else-branch, and the join, after the state `ThenLeft` describes. */
  lemma ElseAndJoinRound(c: nat, n: nat, f: nat, s5: State, elseBlock: Option<Block>)
    requires |s5.frames| > 0 && Valid(Pop(s5)) && f < |Pop(s5).functions| && ThenLeft(c, n, Some(f), Pop(s5))
    ensures var g := LowerElseAndJoin(s5, n, f, elseBlock);
            g.Done? ==> IfJoined(c, n, f, g.st) &&
                        g.st.blocks[n] == Pop(s5).blocks[n].(insts := Pop(s5).blocks[n].insts + [Br(n + 2)])
  {
    ThenExitReady(c, n, f, s5);
    var s7 := ThenExit(s5, n, f);
    ElseAround(s7, n + 1, elseBlock);
    ElseAndJoinCases(s5, n, f, elseBlock);
    var g8 := LowerElse(s7, n + 1, elseBlock);
    if g8.Done? {
      JoinAfterElse(c, n, f, s7, g8.st);
    }
  }

  /** After its condition, any if that lowers leaves the blocks `IfJoined` describes. */
  lemma BranchesJoin(s1: State, condV: Value, s: Stmt)
    requires Valid(s1) && s.IfStatement?
    ensures var p := ParentOf(s1, Cur(s1));
            var g := LowerBranches(s1, condV, s);
            g.Done? ==> p.Some? && IfJoined(Cur(s1), |s1.blocks|, p.value, g.st)
  {
    var p := ParentOf(s1, Cur(s1));
    BranchesCases(s1, condV, s);
    ThenRound(s1, condV, s);
    var g5 := LowerBlock(IfEntry(s1, condV), s.thenBlock);
    if g5.Done? && p.Some? {
      assert s1.functions <= Pop(g5.st).functions;
      ElseAndJoinRound(Cur(s1), |s1.blocks|, p.value, g5.st, s.elseBlock);
    }
  }

  /**
   * Any if that lowers, whatever its condition and branches hold, ends its
   * then and else blocks with the branch to ifcont and leaves ifcont, in
   * the function of the block its condition left current, as the current
   * block.
   */
  lemma IfJoins(st: State, s: Stmt)
    requires Valid(st) && s.IfStatement?
    ensures var g1 := LowerExpr(st, s.cond);
            var g := LowerIf(st, s);
            g.Done? ==> g1.Done? && ParentOf(g1.st, Cur(g1.st)).Some? &&
                        IfJoined(Cur(g1.st), |g1.st.blocks|, ParentOf(g1.st, Cur(g1.st)).value, g.st)
  {
    IfCases(st, s);
    ExprGrows(st, s.cond);
    var g1 := LowerExpr(st, s.cond);
    if g1.Done? {
      BranchesJoin(g1.st, g1.value, s);
    }
  }

  // ---- An if in the then-branch ----

  /**
   * An if whose then-branch is a lone if with a block-free condition
   * leaves the then block with two terminators, the inner if's conditional
   * branch and the branch to ifcont after it, because the outer if appends
   * its branch to the then block rather than to the block the then-branch
   * left current (codegen.cpp:222, 228-229).
   */
  lemma IfInThenBranchDoublyTerminated(st: State, s: Stmt)
    requires Valid(st) && s.IfStatement? && |s.thenBlock.statements| == 1
    requires s.thenBlock.statements[0].IfStatement? && Flat(s.thenBlock.statements[0].cond)
    ensures var g1 := LowerExpr(st, s.cond);
            var g := LowerIf(st, s);
            g.Done? ==> g1.Done? && |g1.st.blocks| < |g.st.blocks| && !WellTerminated(g.st.blocks[|g1.st.blocks|])
  {
    IfCases(st, s);
    ExprGrows(st, s.cond);
    var g1 := LowerExpr(st, s.cond);
    if g1.Done? {
      var s1, n, p := g1.st, |g1.st.blocks|, ParentOf(g1.st, Cur(g1.st));
      BranchesCases(s1, g1.value, s);
      ThenRound(s1, g1.value, s);
      InnerIfClosesThen(s1, g1.value, s);
      var g5 := LowerBlock(IfEntry(s1, g1.value), s.thenBlock);
      if g5.Done? && p.Some? {
        assert s1.functions <= Pop(g5.st).functions;
        ElseAndJoinRound(Cur(s1), n, p.value, g5.st, s.elseBlock);
        SecondTerminator(Pop(g5.st).blocks[n], Br(n + 2));
      }
    }
  }

  /** The lone inner if of the then-branch leaves the then block ending with its conditional branch. */
  lemma InnerIfClosesThen(s1: State, condV: Value, s: Stmt)
    requires Valid(s1) && s.IfStatement? && |s.thenBlock.statements| == 1
    requires s.thenBlock.statements[0].IfStatement? && Flat(s.thenBlock.statements[0].cond)
    ensures var n := |s1.blocks|;
            var g5 := LowerBlock(IfEntry(s1, condV), s.thenBlock);
            g5.Done? ==> EndsBranching(g5.st, n, n + 3, n + 4)
  {
    IfOpens(s1, condV);
    var x := IfEntry(s1, condV);
    var t := s.thenBlock.statements[0];
    assert s.thenBlock == Block([t]);
    OneStatementBlock(x, t);
    IfClosesItsBlock(x, t);
  }

  /** An if with a block-free condition ends the block it starts in with its conditional branch. */
  lemma IfClosesItsBlock(x: State, t: Stmt)
    requires Valid(x) && t.IfStatement? && Flat(t.cond)
    ensures var g := LowerIf(x, t);
            g.Done? ==> EndsBranching(g.st, Cur(x), |x.blocks|, |x.blocks| + 1)
  {
    FlatCondition(x, t.cond);
    IfJoins(x, t);
  }

  /** A block that already ends with a terminator is not well terminated once another is appended. */
  lemma SecondTerminator(b: BasicBlock, t: Inst)
    requires |b.insts| > 0 && IsTerminator(b.insts[|b.insts| - 1])
    ensures !WellTerminated(b.(insts := b.insts + [t]))
  {
    var c := b.(insts := b.insts + [t]);
    assert c.insts[|c.insts| - 2] == b.insts[|b.insts| - 1];
  }

  // ---- While ----

  /** The state after the condition of a while started in block `c` of function `p`, its frame popped. */
  ghost predicate ConditionLeft(c: nat, n: nat, p: Option<nat>, z: State) {
    c < n && n + 2 < |z.blocks| && EndsWith(z, c, Br(n)) &&
    z.blocks[n].name == "loopCond" && z.blocks[n].parent == p &&
    z.blocks[n + 1] == BasicBlock("loop", None, []) &&
    z.blocks[n + 2] == BasicBlock("whilecont", None, [])
  }

  /** The state after the body, its frame popped. */
  ghost predicate BodyLeft(c: nat, n: nat, p: Option<nat>, z: State) {
    c < n && n + 2 < |z.blocks| && EndsWith(z, c, Br(n)) &&
    z.blocks[n].name == "loopCond" && z.blocks[n].parent == p && EndsBranching(z, n, n + 1, n + 2) &&
    z.blocks[n + 1].name == "loop" && z.blocks[n + 1].parent == None &&
    z.blocks[n + 2] == BasicBlock("whilecont", None, [])
  }

  lemma WhileEntryLeft(st: State)
    requires Valid(st)
    ensures ConditionLeft(Cur(st), |st.blocks|, ParentOf(st, Cur(st)), Pop(WhileEntry(st)))
  {
    WhileEntryShape(st);
  }

  lemma AroundCondition(c: nat, n: nat, p: Option<nat>, x: State, z: State)
    requires Valid(x) && n < |x.blocks| && ConditionLeft(c, n, p, x) && GrowsAround(x, n, z)
    ensures ConditionLeft(c, n, p, z)
  {
    assert z.blocks[c] == x.blocks[c];
  }

  /** Any condition touches no block of the while but loopCond. */
  lemma ConditionRound(st: State, cond: Expr)
    requires Valid(st)
    ensures var g3 := LowerExpr(WhileEntry(st), cond);
            g3.Done? ==> |g3.st.frames| > 0 && Valid(Pop(g3.st)) && Grows(st, Pop(g3.st)) &&
                         ConditionLeft(Cur(st), |st.blocks|, ParentOf(st, Cur(st)), Pop(g3.st))
  {
    var n := |st.blocks|;
    WhileOpens(st);
    WhileEntryLeft(st);
    var e := WhileEntry(st);
    ExprGrows(e, cond);
    var g3 := LowerExpr(e, cond);
    if g3.Done? {
      PushPopAround(Pop(e), n, g3.st);
      AroundCondition(Cur(st), n, ParentOf(st, Cur(st)), Pop(e), Pop(g3.st));
      RoundGrows(st, Pop(e), n, g3.st);
    }
  }

  /** The comparison and the conditional branch closing loopCond. */
  lemma LoopEntryLeft(c: nat, n: nat, p: Option<nat>, s3: State, condV: Value)
    requires |s3.frames| > 0 && ConditionLeft(c, n, p, Pop(s3))
    ensures BodyLeft(c, n, p, Pop(LoopEntry(s3, n, condV)))
  {
    CompareAppends(Pop(s3), n, condV);
  }

  /** Whatever the body appends to loop, the blocks `BodyLeft` speaks of stay as they were. */
  lemma AroundBody(c: nat, n: nat, p: Option<nat>, x: State, z: State)
    requires Valid(x) && n + 1 < |x.blocks| && BodyLeft(c, n, p, x) && GrowsAround(x, n + 1, z)
    ensures BodyLeft(c, n, p, z)
  {
    assert z.blocks[c] == x.blocks[c] && z.blocks[n] == x.blocks[n];
  }

  /** The conditional branch closing loopCond, then any body, which touches no block of the while but loop. */
  lemma BodyRound(c: nat, n: nat, p: Option<nat>, s3: State, condV: Value, y: State)
    requires |s3.frames| > 0 && Valid(Pop(s3)) && ConditionLeft(c, n, p, Pop(s3))
    requires Valid(LoopEntry(s3, n, condV)) && Valid(y) && Grows(LoopEntry(s3, n, condV), y)
    ensures |y.frames| > 0 && BodyLeft(c, n, p, Pop(y))
  {
    var r := CompareNonZero(Pop(s3), n, condV);
    var x := Emit(r.0, n, CondBr(r.1, n + 1, n + 2));
    PopPush(x, n + 1);
    LoopEntryLeft(c, n, p, s3, condV);
    PushPopAround(x, n + 1, y);
    AroundBody(c, n, p, x, Pop(y));
  }

  /** The back edge, and loop and whilecont joining `f`. */
  lemma ExitJoins(c: nat, n: nat, f: nat, s6: State)
    requires |s6.frames| > 0 && BodyLeft(c, n, Some(f), Pop(s6))
    ensures WhileJoined(c, n, f, WhileExit(s6, n, f))
  {
  }

  /**
   * Any while that lowers, whatever its condition and body hold, ends the
   * block it started in with the branch to loopCond, loopCond with the
   * conditional branch and the loop block with the back edge, and leaves
   * whilecont, in the function of the block it started in, as the current
   * block.
   */
  lemma WhileJoins(st: State, s: Stmt)
    requires Valid(st) && s.WhileStatement?
    ensures var p := ParentOf(st, Cur(st));
            var g := LowerWhile(st, s);
            g.Done? ==> p.Some? && WhileJoined(Cur(st), |st.blocks|, p.value, g.st)
  {
    var n := |st.blocks|;
    var p := ParentOf(st, Cur(st));
    WhileCases(st, s);
    ConditionRound(st, s.loopCond);
    var g3 := LowerExpr(WhileEntry(st), s.loopCond);
    if g3.Done? {
      LoopBodyCases(g3.st, n, p, g3.value, s);
      LoopOpens(st, g3.st, n, g3.value);
      BlockGrows(LoopEntry(g3.st, n, g3.value), s.loopBody);
      var g6 := LowerBlock(LoopEntry(g3.st, n, g3.value), s.loopBody);
      if g6.Done? {
        BodyRound(Cur(st), n, p, g3.st, g3.value, g6.st);
        if p.Some? {
          ExitJoins(Cur(st), n, p.value, g6.st);
        }
      }
    }
  }
}
