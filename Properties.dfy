/**
 * Properties of the lowering: reference definitions that state what a
 * construct lowers to without threading the state through, and lemmas
 * connecting them to the lowering functions.
 */
module Properties {
  import opened Ast
  import opened Ir
  import opened Context
  import opened Lowering

  // ---- Appending to the current block ----

  /** The state with `code` appended to the current block and nothing else changed. */
  function AppendCur(st: State, code: seq<Inst>): (r: State)
    requires |st.frames| > 0 && Cur(st) < |st.blocks|
    ensures r.frames == st.frames && r.functions == st.functions && r.returnValue == st.returnValue
    ensures |r.blocks| == |st.blocks| && r.blocks[Cur(st)].insts == st.blocks[Cur(st)].insts + code
    ensures r.blocks[Cur(st)].name == st.blocks[Cur(st)].name && r.blocks[Cur(st)].parent == st.blocks[Cur(st)].parent
    ensures forall b :: 0 <= b < |st.blocks| && b != Cur(st) ==> r.blocks[b] == st.blocks[b]
  {
    var c := Cur(st);
    st.(blocks := st.blocks[c := st.blocks[c].(insts := st.blocks[c].insts + code)])
  }

  lemma AppendNothing(st: State)
    requires Valid(st)
    ensures AppendCur(st, []) == st
  {
    assert st.blocks[Cur(st)].insts + [] == st.blocks[Cur(st)].insts;
    assert AppendCur(st, []).blocks == st.blocks;
  }

  lemma AppendTwice(st: State, a: seq<Inst>, b: seq<Inst>)
    requires Valid(st)
    ensures AppendCur(AppendCur(st, a), b) == AppendCur(st, a + b)
  {
    var c := Cur(st);
    assert st.blocks[c].insts + a + b == st.blocks[c].insts + (a + b);
    assert AppendCur(AppendCur(st, a), b).blocks == AppendCur(st, a + b).blocks;
  }

  lemma EmitAppends(st: State, a: seq<Inst>, i: Inst)
    requires Valid(st)
    ensures Emit(AppendCur(st, a), Cur(st), i) == AppendCur(st, a + [i])
  {
    var c := Cur(st);
    assert st.blocks[c].insts + a + [i] == st.blocks[c].insts + (a + [i]);
    assert Emit(AppendCur(st, a), c, i).blocks == AppendCur(st, a + [i]).blocks;
  }

  // ---- Block-free expressions ----

  /** An expression with no block inside: lowering it cannot push frames or create blocks. */
  predicate Flat(e: Expr)
    decreases e
  {
    match e
    case Long(_) => true
    case Identifier(_) => true
    case MethodCall(_, args) => forall i :: 0 <= i < |args| ==> Flat(args[i])
    case BinaryOperator(_, l, r) => Flat(l) && Flat(r)
    case Assignment(_, r) => Flat(r)
    case BlockExpr(_) => false
  }

  /**
   * Reference definition: the instructions a block-free expression puts
   * into block `c`, operands before the instruction that uses them, the
   * first of them at index `base`; names resolved in `frames`, callees in
   * `functions`; and the value the expression yields.  A callee missing
   * from `functions` is an error once the arguments are done.  No value
   * here is null, so no operand check is needed.
   */
  ghost function Flatten(frames: seq<Frame>, functions: seq<Function>, c: nat, base: nat, e: Expr): Result<(seq<Inst>, Value)>
    requires Flat(e)
    decreases e, 1
  {
    match e
    case Long(v) => Ok(([], ConstInt(Int64, v)))
    case Identifier(name) =>
      var slot := GetVar(frames, name);
      if slot == NullValue then Err(UndeclaredVariable(name))
      else Ok(([Load(slot)], InstValue(c, base)))
    case MethodCall(id, args) =>
      match FlattenArgs(frames, functions, c, base, args) {
        case Err(err) => Err(err)
        case Ok((code, vs)) =>
          match GetFunction(functions, id)
          case None => Err(UnknownFunction(id))
          case Some(f) => Ok((code + [Call(f, vs)], InstValue(c, base + |code|)))
      }
    case BinaryOperator(op, l, r) =>
      match ArithOf(op) {
        case None => Err(NoHandlerForOp(op))
        case Some(k) =>
          match Flatten(frames, functions, c, base, l)
          case Err(err) => Err(err)
          case Ok((lc, lv)) =>
            match Flatten(frames, functions, c, base + |lc|, r)
            case Err(err) => Err(err)
            case Ok((rc, rv)) => Ok((lc + rc + [BinOp(k, lv, rv)], InstValue(c, base + |lc| + |rc|)))
      }
    case Assignment(target, r) =>
      var slot := GetVar(frames, target);
      if slot == NullValue then Err(UndeclaredVariable(target))
      else
        match Flatten(frames, functions, c, base, r)
        case Err(err) => Err(err)
        case Ok((rc, rv)) => Ok((rc + [Store(rv, slot)], InstValue(c, base + |rc|)))
  }

  /** The instructions of an argument list, first argument first, and the argument values. */
  ghost function FlattenArgs(frames: seq<Frame>, functions: seq<Function>, c: nat, base: nat, args: seq<Expr>): Result<(seq<Inst>, seq<Value>)>
    requires forall i :: 0 <= i < |args| ==> Flat(args[i])
    decreases args, 0
  {
    if |args| == 0 then Ok(([], []))
    else
      match FlattenArgs(frames, functions, c, base, args[..|args| - 1])
      case Err(err) => Err(err)
      case Ok((code, vs)) =>
        match Flatten(frames, functions, c, base + |code|, args[|args| - 1])
        case Err(err) => Err(err)
        case Ok((ac, v)) => Ok((code + ac, vs + [v]))
  }

  /** What lowering a block-free expression does, by the reference definition. */
  ghost predicate LowersFlat(st: State, e: Expr, g: Gen<Value>)
    requires Valid(st) && Flat(e)
  {
    match Flatten(st.frames, st.functions, Cur(st), |st.blocks[Cur(st)].insts|, e)
    case Err(err) => g == Fail(err)
    case Ok((code, v)) => g == Done(AppendCur(st, code), v)
  }

  /**
   * Lowering a block-free expression appends its post-order code to the
   * current block and changes nothing else; it fails exactly when the
   * reference definition fails, with the same error.
   */
  lemma {:induction false} FlatLowering(st: State, e: Expr)
    requires Valid(st) && Flat(e)
    ensures LowersFlat(st, e, LowerExpr(st, e))
    decreases e, 1
  {
    match e
    case Long(v) => AppendNothing(st);
    case Identifier(name) =>
    case MethodCall(_, _) => FlatCallLowering(st, e);
    case BinaryOperator(_, _, _) => FlatBinaryLowering(st, e);
    case Assignment(target, r) => FlatAssignmentLowering(st, target, r);
  }

  lemma {:induction false} FlatCallLowering(st: State, e: Expr)
    requires Valid(st) && e.MethodCall? && Flat(e)
    ensures LowersFlat(st, e, LowerMethodCall(st, e))
    decreases e, 0
  {
    var c := Cur(st);
    FlatArgsLowering(st, e.arguments);
    match FlattenArgs(st.frames, st.functions, c, |st.blocks[c].insts|, e.arguments) {
      case Err(err) =>
      case Ok((code, vs)) =>
        if GetFunction(st.functions, e.id).Some? {
          EmitAppends(st, code, Call(GetFunction(st.functions, e.id).value, vs));
        }
    }
  }

  lemma {:induction false} FlatBinaryLowering(st: State, e: Expr)
    requires Valid(st) && e.BinaryOperator? && Flat(e)
    ensures LowersFlat(st, e, LowerBinaryOperator(st, e))
    decreases e, 0
  {
    var c := Cur(st);
    var k := |st.blocks[c].insts|;
    if ArithOf(e.op).Some? {
      FlatLowering(st, e.lhs);
      match Flatten(st.frames, st.functions, c, k, e.lhs)
      case Err(err) =>
      case Ok((lc, lv)) =>
        var s1 := AppendCur(st, lc);
        assert Cur(s1) == c && |s1.blocks[c].insts| == k + |lc|;
        FlatLowering(s1, e.rhs);
        match Flatten(st.frames, st.functions, c, k + |lc|, e.rhs)
        case Err(err) =>
        case Ok((rc, rv)) =>
          AppendTwice(st, lc, rc);
          EmitAppends(st, lc + rc, BinOp(ArithOf(e.op).value, lv, rv));
    }
  }

  lemma {:induction false} FlatAssignmentLowering(st: State, target: string, r: Expr)
    requires Valid(st) && Flat(r)
    ensures LowersFlat(st, Assignment(target, r), LowerAssignment(st, target, r))
    decreases r, 2
  {
    var c := Cur(st);
    if GetVar(st.frames, target) != NullValue {
      FlatLowering(st, r);
      match Flatten(st.frames, st.functions, c, |st.blocks[c].insts|, r)
      case Err(err) =>
      case Ok((rc, rv)) =>
        EmitAppends(st, rc, Store(rv, GetVar(st.frames, target)));
    }
  }

  lemma {:induction false} FlatArgsLowering(st: State, args: seq<Expr>)
    requires Valid(st) && forall i :: 0 <= i < |args| ==> Flat(args[i])
    ensures var c := Cur(st);
            match FlattenArgs(st.frames, st.functions, c, |st.blocks[c].insts|, args)
            case Err(err) => LowerArguments(st, args) == Fail(err)
            case Ok((code, vs)) => LowerArguments(st, args) == Done(AppendCur(st, code), vs)
    decreases args, 0
  {
    var c := Cur(st);
    var k := |st.blocks[c].insts|;
    if |args| == 0 {
      AppendNothing(st);
    } else {
      var init := args[..|args| - 1];
      FlatArgsLowering(st, init);
      match FlattenArgs(st.frames, st.functions, c, k, init)
      case Err(err) =>
      case Ok((code, vs)) =>
        var s1 := AppendCur(st, code);
        assert Cur(s1) == c && |s1.blocks[c].insts| == k + |code|;
        FlatLowering(s1, args[|args| - 1]);
        match Flatten(st.frames, st.functions, c, k + |code|, args[|args| - 1])
        case Err(err) =>
        case Ok((ac, v)) =>
          AppendTwice(st, code, ac);
    }
  }

  /**
   * A call of a function the module does not have, looked up before the
   * arguments: the arguments are still lowered, and an error among them
   * comes first; otherwise creating the call is fatal.  Any arguments, in
   * any state.
   */
  lemma UnknownCalleeFails(st: State, e: Expr)
    requires e.MethodCall? && GetFunction(st.functions, e.id).None?
    ensures var ga := LowerArguments(st, e.arguments);
            var g := LowerExpr(st, e);
            (ga.Fail? ==> g == Fail(ga.error)) &&
            (ga.Done? ==> g == Fail(UnknownFunction(e.id)))
  {
  }

  /** A block-free expression never yields the null value. */
  lemma FlattenNotNull(frames: seq<Frame>, functions: seq<Function>, c: nat, base: nat, e: Expr)
    requires Flat(e)
    ensures var fl := Flatten(frames, functions, c, base, e); fl.Ok? ==> fl.value.1 != NullValue
  {
  }

  /** Code with no terminator in it: a block it is appended to can still be ended by one. */
  predicate Plain(code: seq<Inst>) {
    forall k :: 0 <= k < |code| ==> !IsTerminator(code[k])
  }

  /** A block-free expression never emits a terminator. */
  lemma {:induction false} FlattenPlain(frames: seq<Frame>, functions: seq<Function>, c: nat, base: nat, e: Expr)
    requires Flat(e)
    ensures var fl := Flatten(frames, functions, c, base, e); fl.Ok? ==> Plain(fl.value.0)
    decreases e, 1
  {
    match e
    case Long(_) =>
    case Identifier(_) =>
    case MethodCall(_, args) =>
      FlattenArgsPlain(frames, functions, c, base, args);
    case BinaryOperator(_, l, r) =>
      FlattenPlain(frames, functions, c, base, l);
      var fl := Flatten(frames, functions, c, base, l);
      if fl.Ok? {
        FlattenPlain(frames, functions, c, base + |fl.value.0|, r);
      }
    case Assignment(_, r) =>
      FlattenPlain(frames, functions, c, base, r);
  }

  lemma {:induction false} FlattenArgsPlain(frames: seq<Frame>, functions: seq<Function>, c: nat, base: nat, args: seq<Expr>)
    requires forall i :: 0 <= i < |args| ==> Flat(args[i])
    ensures var fl := FlattenArgs(frames, functions, c, base, args); fl.Ok? ==> Plain(fl.value.0)
    decreases args, 0
  {
    if |args| > 0 {
      var init := args[..|args| - 1];
      FlattenArgsPlain(frames, functions, c, base, init);
      var fl := FlattenArgs(frames, functions, c, base, init);
      if fl.Ok? {
        FlattenPlain(frames, functions, c, base + |fl.value.0|, args[|args| - 1]);
      }
    }
  }

  /** A frame with no locals on top hides nothing: getVar sees the frames below it. */
  lemma GetVarEmptyTop(frames: seq<Frame>, b: nat, name: string)
    ensures GetVar(frames + [Frame(b, map[])], name) == GetVar(frames, name)
  {
    var fr := frames + [Frame(b, map[])];
    assert fr[..|fr| - 1] == frames;
  }

  /** So a block-free expression flattens the same under a fresh frame. */
  lemma {:induction false} FlattenEmptyTop(frames: seq<Frame>, functions: seq<Function>, c: nat, base: nat, b: nat, e: Expr)
    requires Flat(e)
    ensures Flatten(frames + [Frame(b, map[])], functions, c, base, e) == Flatten(frames, functions, c, base, e)
    decreases e, 1
  {
    var fr := frames + [Frame(b, map[])];
    match e
    case Long(_) =>
    case Identifier(name) =>
      GetVarEmptyTop(frames, b, name);
    case MethodCall(_, args) =>
      FlattenArgsEmptyTop(frames, functions, c, base, b, args);
    case BinaryOperator(_, _, _) =>
      FlattenBinaryEmptyTop(frames, functions, c, base, b, e);
    case Assignment(target, r) =>
      GetVarEmptyTop(frames, b, target);
      FlattenEmptyTop(frames, functions, c, base, b, r);
  }

  lemma {:induction false} FlattenBinaryEmptyTop(frames: seq<Frame>, functions: seq<Function>, c: nat, base: nat, b: nat, e: Expr)
    requires e.BinaryOperator? && Flat(e)
    ensures Flatten(frames + [Frame(b, map[])], functions, c, base, e) == Flatten(frames, functions, c, base, e)
    decreases e, 0
  {
    var fr := frames + [Frame(b, map[])];
    FlattenEmptyTop(frames, functions, c, base, b, e.lhs);
    var fl := Flatten(frames, functions, c, base, e.lhs);
    if fl.Ok? {
      FlattenEmptyTop(frames, functions, c, base + |fl.value.0|, b, e.rhs);
    }
  }

  lemma {:induction false} FlattenArgsEmptyTop(frames: seq<Frame>, functions: seq<Function>, c: nat, base: nat, b: nat, args: seq<Expr>)
    requires forall i :: 0 <= i < |args| ==> Flat(args[i])
    ensures FlattenArgs(frames + [Frame(b, map[])], functions, c, base, args) == FlattenArgs(frames, functions, c, base, args)
    decreases args, 0
  {
    if |args| > 0 {
      var init := args[..|args| - 1];
      FlattenArgsEmptyTop(frames, functions, c, base, b, init);
      var fl := FlattenArgs(frames, functions, c, base, init);
      if fl.Ok? {
        FlattenEmptyTop(frames, functions, c, base + |fl.value.0|, b, args[|args| - 1]);
      }
    }
  }

  // ---- Folds over lists: a failure stops the whole list ----

  /** Once the first `k` parameter types contain an unknown name, the whole list fails with that error. */
  lemma {:induction false} TypeOfAllPrefixFails(params: seq<VariableDeclaration>, k: nat)
    requires k <= |params| && TypeOfAll(params[..k]).Err?
    ensures TypeOfAll(params) == TypeOfAll(params[..k])
    decreases |params|
  {
    if k < |params| {
      var init := params[..|params| - 1];
      assert init[..k] == params[..k];
      TypeOfAllPrefixFails(init, k);
    } else {
      assert params[..k] == params;
    }
  }

  /** Once an argument fails, the argument list fails with the same error. */
  lemma {:induction false} ArgumentsPrefixFails(st: State, args: seq<Expr>, k: nat)
    requires k <= |args| && LowerArguments(st, args[..k]).Fail?
    ensures LowerArguments(st, args) == LowerArguments(st, args[..k])
    decreases |args|
  {
    if k < |args| {
      var init := args[..|args| - 1];
      assert init[..k] == args[..k];
      ArgumentsPrefixFails(st, init, k);
    } else {
      assert args[..k] == args;
    }
  }

  /** Once a statement fails, the block fails with the same error: later statements are not lowered. */
  lemma {:induction false} StatementsPrefixFails(st: State, ss: seq<Stmt>, k: nat)
    requires k <= |ss| && LowerStatements(st, ss[..k]).Fail?
    ensures LowerStatements(st, ss) == LowerStatements(st, ss[..k])
    decreases |ss|
  {
    if k < |ss| {
      var init := ss[..|ss| - 1];
      assert init[..k] == ss[..k];
      StatementsPrefixFails(st, init, k);
    } else {
      assert ss[..k] == ss;
    }
  }

  /** Once a parameter fails, the parameter loop fails with the same error. */
  lemma {:induction false} ParametersPrefixFails(st: State, f: nat, entry: nat, params: seq<VariableDeclaration>, k: nat)
    requires k <= |params| && LowerParameters(st, f, entry, params[..k]).Fail?
    ensures LowerParameters(st, f, entry, params) == LowerParameters(st, f, entry, params[..k])
    decreases |params|
  {
    if k < |params| {
      var init := params[..|params| - 1];
      assert init[..k] == params[..k];
      ParametersPrefixFails(st, f, entry, init, k);
    } else {
      assert params[..k] == params;
    }
  }
}
