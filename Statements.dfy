/**
 * Properties of blocks, declarations and return statements: the order in
 * which a block lowers its statements, what a declaration binds and
 * appends, and straight-line code staying in its block.
 */
module Statements {
  import opened Ast
  import opened Ir
  import opened Context
  import opened Lowering
  import opened Invariants
  import opened Properties

  // ---- Blocks ----

  /**
   * Reference definition of a block: the first statement first, each
   * following statement in the state the previous one left; the value of
   * the last statement, or null when there is none.
   */
  ghost function RunInOrder(st: State, ss: seq<Stmt>): Gen<Value>
    decreases |ss|
  {
    if |ss| == 0 then Done(st, NullValue)
    else
      match LowerStmt(st, ss[0])
      case Fail(err) => Fail(err)
      case Done(s1, v) => if |ss| == 1 then Done(s1, v) else RunInOrder(s1, ss[1..])
  }

  /** Lowering `p + q` is lowering `p` and then, in the state it leaves, `q`. */
  lemma {:induction false} StatementsAppend(st: State, p: seq<Stmt>, q: seq<Stmt>)
    ensures LowerStatements(st, p + q) ==
            match LowerStatements(st, p)
            case Fail(err) => Fail(err)
            case Done(s1, v) => if |q| == 0 then Done(s1, v) else LowerStatements(s1, q)
    decreases |q|
  {
    if |q| == 0 {
      assert p + q == p;
    } else {
      var q' := q[..|q| - 1];
      assert (p + q)[..|p + q| - 1] == p + q';
      assert (p + q)[|p + q| - 1] == q[|q| - 1];
      StatementsAppend(st, p, q');
      if |q'| == 0 {
        assert q[..0] == [];
      }
    }
  }

  /** NBlock::codeGen lowers the statements in list order (codegen.cpp:141-144). */
  lemma {:induction false} BlockInListOrder(st: State, b: Block)
    ensures LowerBlock(st, b) == RunInOrder(st, b.statements)
    decreases |b.statements|
  {
    var ss := b.statements;
    if |ss| > 0 {
      assert ss == [ss[0]] + ss[1..];
      StatementsAppend(st, [ss[0]], ss[1..]);
      assert [ss[0]][..0] == [];
      match LowerStmt(st, ss[0])
      case Fail(_) =>
      case Done(s1, _) =>
        if |ss| > 1 {
          BlockInListOrder(s1, Block(ss[1..]));
        }
    }
  }

  /** A block made of one statement lowers as that statement: wrapping by the node.h constructors is transparent. */
  lemma OneStatementBlock(st: State, s: Stmt)
    ensures LowerBlock(st, Block([s])) == LowerStmt(st, s)
  {
    assert [s][..0] == [];
    assert LowerStatements(st, [s][..0]) == Done(st, NullValue);
    assert LowerBlock(st, Block([s])) == LowerStatements(st, [s]);
  }

  // ---- The null value of an empty block ----

  /** An empty block used as an expression: it changes nothing and yields null. */
  const EmptyBlock: Expr := BlockExpr(Block([]))

  /**
   * An arithmetic operator with an empty block on the left: the right
   * operand is still lowered, and an error there comes first; otherwise
   * creating the instruction on the null operand is fatal.
   */
  lemma NullLeftOperandFails(st: State, op: Token, rhs: Expr)
    requires ArithOf(op).Some?
    ensures var g := LowerExpr(st, rhs);
            LowerExpr(st, BinaryOperator(op, EmptyBlock, rhs)) ==
              if g.Fail? then Fail(g.error) else Fail(NullOperand)
  {
    assert LowerExpr(st, EmptyBlock) == Done(st, NullValue);
  }

  /** Storing the null value of an empty block into a declared variable is fatal. */
  lemma NullStoreFails(st: State, target: string)
    requires GetVar(st.frames, target) != NullValue
    ensures LowerExpr(st, Assignment(target, EmptyBlock)) == Fail(NullOperand)
  {
    assert LowerExpr(st, EmptyBlock) == Done(st, NullValue);
  }

  /** An if whose condition is an empty block fails at the comparison, before any block is created. */
  lemma NullIfConditionFails(st: State, s: Stmt)
    requires s.IfStatement? && s.cond == EmptyBlock
    ensures LowerStmt(st, s) == Fail(NullOperand)
  {
    assert LowerExpr(st, EmptyBlock) == Done(st, NullValue);
    assert LowerIf(st, s) == LowerBranches(st, NullValue, s);
  }

  /** A while whose condition is an empty block fails at the comparison, before the body. */
  lemma NullWhileConditionFails(st: State, s: Stmt)
    requires s.WhileStatement? && s.loopCond == EmptyBlock
    ensures LowerStmt(st, s) == Fail(NullOperand)
  {
    assert LowerExpr(WhileEntry(st), EmptyBlock) == Done(WhileEntry(st), NullValue);
    assert LowerWhile(st, s) == LowerLoopBody(WhileEntry(st), |st.blocks|, ParentOf(st, Cur(st)), NullValue, s);
  }

  // ---- Declarations ----

  /**
   * The state after the alloca of a declaration of `id` with type `ty`: the
   * alloca appended to the current block and bound to `id` in the top frame.
   */
  ghost function Declared(st: State, ty: IrType, id: string): (r: State)
    requires Valid(st)
    ensures Valid(r) && Grows(st, r) && |r.blocks| == |st.blocks| && |r.frames| == |st.frames|
    ensures Cur(r) == Cur(st) && r.blocks[Cur(st)].insts == st.blocks[Cur(st)].insts + [Alloca(ty, id)]
    ensures r.frames[|r.frames| - 1].locals == st.frames[|st.frames| - 1].locals[id := Allocated(st)]
    ensures GetVar(r.frames, id) == Allocated(st)
    ensures forall x :: x != id ==> GetVar(r.frames, x) == GetVar(st.frames, x)
  {
    var s0 := AppendCur(st, [Alloca(ty, id)]);
    var r := Bind(s0, id, Allocated(st));
    GetVarTop(s0.frames, r.frames);
    GrowsRefl(st);
    EmitGrows(st, st, Cur(st), Alloca(ty, id));
    EmitAppends(st, [], Alloca(ty, id));
    AppendNothing(st);
    BindGrows(st, s0, id, Allocated(st));
    r
  }

  /** The value of the alloca a declaration appends. */
  function Allocated(st: State): Value {
    NextValue(st, Cur(st))
  }

  /** Frames that differ only in the top frame's locals: getVar sees the top first, then the same frames below. */
  lemma GetVarTop(a: seq<Frame>, b: seq<Frame>)
    requires |a| == |b| > 0 && a[..|a| - 1] == b[..|b| - 1]
    ensures forall x :: x in b[|b| - 1].locals ==> GetVar(b, x) == b[|b| - 1].locals[x]
    ensures forall x :: x !in a[|a| - 1].locals && x !in b[|b| - 1].locals ==> GetVar(b, x) == GetVar(a, x)
    ensures forall x :: x in a[|a| - 1].locals && x in b[|b| - 1].locals && a[|a| - 1].locals[x] == b[|b| - 1].locals[x] ==> GetVar(b, x) == GetVar(a, x)
  {
  }

  /**
   * A declaration with a block-free initializer, by the reference
   * definition: after the alloca, the initializer's code and one store
   * into the alloca; a failing initializer fails the declaration.
   */
  ghost predicate DeclaresFlat(st: State, d: VariableDeclaration, ty: IrType, g: Gen<Value>)
    requires Valid(st) && d.assignmentExpr.Some? && Flat(d.assignmentExpr.value)
  {
    var s1 := Declared(st, ty, d.id);
    var c := Cur(st);
    var fl := Flatten(s1.frames, s1.functions, c, |st.blocks[c].insts| + 1, d.assignmentExpr.value);
    (fl.Err? ==> g == Fail(fl.error)) &&
    (fl.Ok? ==> g == Done(AppendCur(s1, fl.value.0 + [Store(fl.value.1, Allocated(st))]), Allocated(st)))
  }

  /**
   * NVariableDeclaration::codeGen (codegen.cpp:163-173): an unknown type is
   * fatal; otherwise one alloca of the type in the current block, bound to
   * the name in the innermost frame in place of any binding there, and, for
   * a block-free initializer, its code and one store into the alloca.  The
   * value is the alloca.
   */
  lemma DeclarationLowering(st: State, d: VariableDeclaration)
    requires Valid(st)
    ensures TypeOf(d.typeName).Err? ==> LowerVariableDeclaration(st, d) == Fail(TypeOf(d.typeName).error)
    ensures TypeOf(d.typeName).Ok? && d.assignmentExpr.None? ==>
              LowerVariableDeclaration(st, d) == Done(Declared(st, TypeOf(d.typeName).value, d.id), Allocated(st))
    ensures TypeOf(d.typeName).Ok? && d.assignmentExpr.Some? && Flat(d.assignmentExpr.value) ==>
              DeclaresFlat(st, d, TypeOf(d.typeName).value, LowerVariableDeclaration(st, d))
  {
    if TypeOf(d.typeName).Ok? {
      var ty := TypeOf(d.typeName).value;
      var s1 := Declared(st, ty, d.id);
      EmitAppends(st, [], Alloca(ty, d.id));
      AppendNothing(st);
      assert Bind(Emit(st, Cur(st), Alloca(ty, d.id)), d.id, Allocated(st)) == s1;
      if d.assignmentExpr.Some? && Flat(d.assignmentExpr.value) {
        FlatAssignmentLowering(s1, d.id, d.assignmentExpr.value);
      }
    }
  }

  /**
   * Declaring a name twice in the same scope is not an error: the second
   * alloca replaces the first in the innermost frame (codegen.cpp:167).
   */
  lemma RedeclarationOverwrites(st: State, t1: string, t2: string, id: string)
    requires Valid(st) && TypeOf(t1).Ok? && TypeOf(t2).Ok?
    ensures var g := LowerStatements(st, [Declaration(DeclarationOf(t1, id)), Declaration(DeclarationOf(t2, id))]);
            var c := Cur(st);
            var k := |st.blocks[c].insts|;
            g.Done? && g.value == InstValue(c, k + 1) && |g.st.blocks| == |st.blocks| &&
            GetVar(g.st.frames, id) == InstValue(c, k + 1) &&
            g.st.frames[|g.st.frames| - 1].locals == st.frames[|st.frames| - 1].locals[id := InstValue(c, k + 1)] &&
            g.st.blocks[c].insts == st.blocks[c].insts + [Alloca(TypeOf(t1).value, id), Alloca(TypeOf(t2).value, id)]
  {
    var d1, d2 := DeclarationOf(t1, id), DeclarationOf(t2, id);
    var ss := [Declaration(d1), Declaration(d2)];
    assert ss[..1] == [Declaration(d1)];
    OneStatementBlock(st, Declaration(d1));
    DeclarationLowering(st, d1);
    var s1 := Declared(st, TypeOf(t1).value, id);
    assert LowerStatements(st, ss[..1]) == Done(s1, Allocated(st));
    DeclarationLowering(s1, d2);
    var s2 := Declared(s1, TypeOf(t2).value, id);
    assert LowerStmt(s1, Declaration(d2)) == Done(s2, Allocated(s1));
    assert LowerStatements(st, ss) == Done(s2, Allocated(s1));
  }

  // ---- Return ----

  /**
   * NReturnStatement::codeGen (codegen.cpp:155-161): the code of the
   * expression, and its value stored in the return-value cell and yielded.
   */
  lemma ReturnLowering(st: State, e: Expr)
    requires Valid(st) && Flat(e)
    ensures var fl := Flatten(st.frames, st.functions, Cur(st), |st.blocks[Cur(st)].insts|, e);
            (fl.Err? ==> LowerReturn(st, e) == Fail(fl.error)) &&
            (fl.Ok? ==> LowerReturn(st, e) == Done(AppendCur(st, fl.value.0).(returnValue := fl.value.1), fl.value.1))
  {
    FlatLowering(st, e);
  }

  // ---- Straight-line code ----

  /** A statement that creates no block and pushes no frame. */
  predicate StraightStmt(s: Stmt) {
    match s
    case ExpressionStatement(e) => Flat(e)
    case ReturnStatement(e) => Flat(e)
    case Declaration(d) => d.assignmentExpr.None? || Flat(d.assignmentExpr.value)
    case FunctionDeclaration(_, _, _, _) => false
    case IfStatement(_, _, _) => false
    case WhileStatement(_, _) => false
  }

  predicate Straight(ss: seq<Stmt>) {
    forall i :: 0 <= i < |ss| ==> StraightStmt(ss[i])
  }

  /**
   * Stays in the current block: a growth with no new block, no new frame and
   * no new function, which appends no terminator to the current block.
   */
  ghost predicate InBlock(st: State, st': State)
    requires Valid(st)
  {
    Valid(st') && Grows(st, st') && |st'.blocks| == |st.blocks| && |st'.frames| == |st.frames| &&
    st'.functions == st.functions &&
    Plain(st'.blocks[Cur(st)].insts[|st.blocks[Cur(st)].insts|..])
  }

  lemma InBlockRefl(st: State)
    requires Valid(st)
    ensures InBlock(st, st)
  {
    GrowsRefl(st);
  }

  lemma InBlockTrans(a: State, b: State, c: State)
    requires Valid(a) && Valid(b) && InBlock(a, b) && InBlock(b, c)
    ensures InBlock(a, c)
  {
    GrowsTrans(a, b, c);
    var k := Cur(a);
    var ia, ib, ic := a.blocks[k].insts, b.blocks[k].insts, c.blocks[k].insts;
    assert ic[|ia|..] == ib[|ia|..] + ic[|ib|..];
  }

  /** Appending plain code to the current block stays in it. */
  lemma AppendInBlock(st: State, code: seq<Inst>)
    requires Valid(st) && Plain(code)
    ensures InBlock(st, AppendCur(st, code))
  {
    var c := Cur(st);
    assert AppendCur(st, code).blocks[c].insts[|st.blocks[c].insts|..] == code;
  }

  lemma StraightStmtInBlock(st: State, s: Stmt)
    requires Valid(st) && StraightStmt(s)
    ensures var g := LowerStmt(st, s); g.Done? ==> InBlock(st, g.st)
  {
    var c := Cur(st);
    var k := |st.blocks[c].insts|;
    match s
    case ExpressionStatement(e) =>
      FlatLowering(st, e);
      FlattenPlain(st.frames, st.functions, c, k, e);
      var fl := Flatten(st.frames, st.functions, c, k, e);
      if fl.Ok? {
        AppendInBlock(st, fl.value.0);
      }
    case ReturnStatement(e) =>
      ReturnLowering(st, e);
      FlattenPlain(st.frames, st.functions, c, k, e);
      var fl := Flatten(st.frames, st.functions, c, k, e);
      if fl.Ok? {
        AppendInBlock(st, fl.value.0);
      }
    case Declaration(d) =>
      DeclarationLowering(st, d);
      if TypeOf(d.typeName).Ok? {
        var s1 := Declared(st, TypeOf(d.typeName).value, d.id);
        assert InBlock(st, s1) by {
          assert s1.blocks[c].insts[k..] == [Alloca(TypeOf(d.typeName).value, d.id)];
        }
        if d.assignmentExpr.Some? {
          var r := d.assignmentExpr.value;
          FlattenPlain(s1.frames, s1.functions, c, k + 1, r);
          var fl := Flatten(s1.frames, s1.functions, c, k + 1, r);
          if fl.Ok? {
            AppendInBlock(s1, fl.value.0 + [Store(fl.value.1, Allocated(st))]);
            InBlockTrans(st, s1, AppendCur(s1, fl.value.0 + [Store(fl.value.1, Allocated(st))]));
          }
        }
      }
  }

  /** Straight-line statements append plain code to the current block only: no block is created and no frame is left. */
  lemma {:induction false} StraightStaysInBlock(st: State, ss: seq<Stmt>)
    requires Valid(st) && Straight(ss)
    ensures var g := LowerStatements(st, ss); g.Done? ==> InBlock(st, g.st)
    decreases |ss|
  {
    if |ss| == 0 {
      InBlockRefl(st);
    } else {
      StraightStaysInBlock(st, ss[..|ss| - 1]);
      var g1 := LowerStatements(st, ss[..|ss| - 1]);
      if g1.Done? {
        StraightStmtInBlock(g1.st, ss[|ss| - 1]);
        var g2 := LowerStmt(g1.st, ss[|ss| - 1]);
        if g2.Done? {
          InBlockTrans(st, g1.st, g2.st);
        }
      }
    }
  }
}
