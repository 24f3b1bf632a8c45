/**
 * Properties of function declarations and of generateCode: the code the
 * parameter loop writes into the entry block, the bindings it leaves, the
 * `ret` that closes a function, and the frames and the return-value cell
 * after a function has been lowered.
 */
module Functions {
  import opened Ast
  import opened Ir
  import opened Context
  import opened Lowering
  import opened Invariants
  import opened Properties

  // ---- The parameter loop ----

  /** Parameters declared without an initializer, as in `long f(long a, long b)`. */
  predicate Uninitialised(params: seq<VariableDeclaration>) {
    forall i :: 0 <= i < |params| ==> params[i].assignmentExpr.None?
  }

  /**
   * Reference definition of the entry code of the parameters with types
   * `tys`: for parameter i, an alloca of its type, then a store of incoming
   * argument i of function `f` into that alloca, which is instruction
   * `base + 2 i` of the entry block.
   */
  function ParamCode(f: nat, entry: nat, base: nat, tys: seq<IrType>, params: seq<VariableDeclaration>): (r: seq<Inst>)
    requires |tys| == |params|
    ensures |r| == 2 * |params|
    ensures forall i :: 0 <= i < |params| ==>
              r[2 * i] == Alloca(tys[i], params[i].id) &&
              r[2 * i + 1] == Store(Argument(f, i), InstValue(entry, base + 2 * i))
    decreases |params|
  {
    if |params| == 0 then []
    else
      var k := |params| - 1;
      ParamCode(f, entry, base, tys[..k], params[..k]) +
      [Alloca(tys[k], params[k].id), Store(Argument(f, k), InstValue(entry, base + 2 * k))]
  }

  /**
   * The bindings the parameters add to the entry frame: every parameter name,
   * and no other, bound to the alloca of the last parameter of that name
   * (`ParamBindingsLast`).
   */
  function ParamBindings(entry: nat, base: nat, params: seq<VariableDeclaration>): (r: map<string, Value>)
    ensures r.Keys == set i | 0 <= i < |params| :: params[i].id
    decreases |params|
  {
    if |params| == 0 then map[]
    else
      var k := |params| - 1;
      var r0 := ParamBindings(entry, base, params[..k]);
      assert (set i | 0 <= i < |params| :: params[i].id) == (set i | 0 <= i < k :: params[..k][i].id) + {params[k].id};
      r0[params[k].id := InstValue(entry, base + 2 * k)]
  }

  /** A parameter name is bound to the alloca of the last parameter of that name. */
  lemma {:induction false} ParamBindingsLast(entry: nat, base: nat, params: seq<VariableDeclaration>, i: nat)
    requires i < |params| && forall j :: i < j < |params| ==> params[j].id != params[i].id
    ensures var r := ParamBindings(entry, base, params);
            params[i].id in r && r[params[i].id] == InstValue(entry, base + 2 * i)
    decreases |params|
  {
    var k := |params| - 1;
    if i < k {
      ParamBindingsLast(entry, base, params[..k], i);
    }
  }

  /** The state after the parameter loop, run in `st` whose current block is the entry block. */
  function Entered(st: State, f: nat, tys: seq<IrType>, params: seq<VariableDeclaration>): (r: State)
    requires Valid(st) && |tys| == |params|
    ensures Valid(r) && Cur(r) == Cur(st) && |r.frames| == |st.frames| && r.frames[..|st.frames| - 1] == st.frames[..|st.frames| - 1]
    ensures r.functions == st.functions && r.returnValue == st.returnValue && |r.blocks| == |st.blocks|
  {
    var entry := Cur(st);
    var base := |st.blocks[entry].insts|;
    var h := |st.frames| - 1;
    var top := st.frames[h];
    AppendCur(st, ParamCode(f, entry, base, tys, params))
      .(frames := st.frames[h := top.(locals := top.locals + ParamBindings(entry, base, params))])
  }

  /**
   * The parameter loop of NFunctionDeclaration::codeGen (codegen.cpp:190-197):
   * a parameter of unknown type stops it with the error of the first such
   * parameter; otherwise it appends `ParamCode` to the entry block and binds
   * the parameters in the entry frame.
   */
  lemma {:induction false} ParametersLowering(st: State, f: nat, params: seq<VariableDeclaration>)
    requires Valid(st) && Uninitialised(params)
    ensures var g := LowerParameters(st, f, Cur(st), params);
            var tys := TypeOfAll(params);
            (tys.Err? ==> g == Fail(tys.error)) &&
            (tys.Ok? ==> g == Done(Entered(st, f, tys.value, params), ()))
    decreases |params|
  {
    var entry := Cur(st);
    if |params| == 0 {
      var h := |st.frames| - 1;
      assert st.frames[h].locals + map[] == st.frames[h].locals;
      AppendNothing(st);
      assert st.frames[h := st.frames[h]] == st.frames;
    } else {
      var k := |params| - 1;
      var init, p := params[..k], params[k];
      assert Uninitialised(init);
      ParametersLowering(st, f, init);
      var ti := TypeOfAll(init);
      if ti.Ok? && TypeOf(p.typeName).Ok? {
        var tys := ti.value + [TypeOf(p.typeName).value];
        assert TypeOfAll(params) == Ok(tys);
        assert tys[..k] == ti.value;
        ParameterStep(st, f, tys, params);
      }
    }
  }

  /** One more parameter of known type: its alloca, its binding and its store. */
  lemma ParameterStep(st: State, f: nat, tys: seq<IrType>, params: seq<VariableDeclaration>)
    requires Valid(st) && |tys| == |params| > 0 && params[|params| - 1].assignmentExpr.None?
    requires TypeOf(params[|params| - 1].typeName) == Ok(tys[|params| - 1])
    ensures var k := |params| - 1;
            var s1 := Entered(st, f, tys[..k], params[..k]);
            var p := params[k];
            match LowerVariableDeclaration(s1, p)
            case Fail(_) => false
            case Done(s2, _) =>
              Emit(LocalsTouch(s2, p.id), Cur(st), Store(Argument(f, k), LocalsRead(s2, p.id))) ==
              Entered(st, f, tys, params)
  {
    var k := |params| - 1;
    var s1 := Entered(st, f, tys[..k], params[..k]);
    var p := params[k];
    EnteredStep(st, f, tys, params);
    var s2 := Bind(Emit(s1, Cur(st), Alloca(tys[k], p.id)), p.id, NextValue(s1, Cur(s1)));
    assert LowerVariableDeclaration(s1, p) == Done(s2, NextValue(s1, Cur(s1)));
  }

  /** `Entered` for one more parameter: the alloca, the binding and the store after the others. */
  lemma EnteredStep(st: State, f: nat, tys: seq<IrType>, params: seq<VariableDeclaration>)
    requires Valid(st) && |tys| == |params| > 0
    ensures var k, entry := |params| - 1, Cur(st);
            var p := params[k];
            var s1 := Entered(st, f, tys[..k], params[..k]);
            var alloc := InstValue(entry, |st.blocks[entry].insts| + 2 * k);
            var s2 := Bind(Emit(s1, entry, Alloca(tys[k], p.id)), p.id, alloc);
            Cur(s1) == entry && NextValue(s1, entry) == alloc &&
            LocalsRead(s2, p.id) == alloc && LocalsTouch(s2, p.id) == s2 &&
            Emit(s2, entry, Store(Argument(f, k), alloc)) == Entered(st, f, tys, params)
  {
    var entry := Cur(st);
    var k := |params| - 1;
    var p := params[k];
    var s1 := Entered(st, f, tys[..k], params[..k]);
    var alloc := InstValue(entry, |st.blocks[entry].insts| + 2 * k);
    var s2 := Bind(Emit(s1, entry, Alloca(tys[k], p.id)), p.id, alloc);
    EnteredBlocksStep(st, f, tys, params);
    EnteredFramesStep(st, f, tys, params);
    assert p.id in s2.frames[|s2.frames| - 1].locals;
  }

  /** The blocks of `Entered` for one more parameter: its alloca and its store after the others' code. */
  lemma EnteredBlocksStep(st: State, f: nat, tys: seq<IrType>, params: seq<VariableDeclaration>)
    requires Valid(st) && |tys| == |params| > 0
    ensures var k, entry := |params| - 1, Cur(st);
            var base := |st.blocks[entry].insts|;
            var s1 := Entered(st, f, tys[..k], params[..k]);
            |s1.blocks[entry].insts| == base + 2 * k &&
            Emit(Emit(s1, entry, Alloca(tys[k], params[k].id)), entry, Store(Argument(f, k), InstValue(entry, base + 2 * k))).blocks ==
            Entered(st, f, tys, params).blocks
  {
    var entry := Cur(st);
    var base := |st.blocks[entry].insts|;
    var k := |params| - 1;
    var p := params[k];
    var alloc := InstValue(entry, base + 2 * k);
    var pc := ParamCode(f, entry, base, tys[..k], params[..k]);
    assert st.blocks[entry].insts + pc + [Alloca(tys[k], p.id)] + [Store(Argument(f, k), alloc)] ==
           st.blocks[entry].insts + (pc + [Alloca(tys[k], p.id), Store(Argument(f, k), alloc)]);
  }

  /** The frames of `Entered` for one more parameter: its binding after the others'. */
  lemma EnteredFramesStep(st: State, f: nat, tys: seq<IrType>, params: seq<VariableDeclaration>)
    requires Valid(st) && |tys| == |params| > 0
    ensures var k, entry := |params| - 1, Cur(st);
            var s1 := Entered(st, f, tys[..k], params[..k]);
            Bind(s1, params[k].id, InstValue(entry, |st.blocks[entry].insts| + 2 * k)).frames ==
            Entered(st, f, tys, params).frames
  {
    var entry := Cur(st);
    var base := |st.blocks[entry].insts|;
    var h := |st.frames| - 1;
    var top := st.frames[h];
    var k := |params| - 1;
    var pb := ParamBindings(entry, base, params[..k]);
    assert (top.locals + pb)[params[k].id := InstValue(entry, base + 2 * k)] ==
           top.locals + pb[params[k].id := InstValue(entry, base + 2 * k)];
  }

  // ---- Function declarations ----

  /**
   * What a lowered function leaves, from `st`: the frames of `st`, function
   * `fn` at index |functions| with its entry block, every older block
   * untouched, and `ret rv` at the end of block `last`, the block current
   * when the body was done.
   */
  ghost predicate FunctionClosed(st: State, fn: Function, last: nat, rv: Value, z: State)
    requires Valid(st)
  {
    var f, entry := |st.functions|, |st.blocks|;
    z.frames == st.frames && st.functions + [fn] <= z.functions &&
    entry < |z.blocks| && (forall b :: 0 <= b < entry ==> z.blocks[b] == st.blocks[b]) &&
    z.blocks[entry].name == "entry" && z.blocks[entry].parent == Some(f) &&
    entry <= last < |z.blocks| &&
    |z.blocks[last].insts| > 0 && z.blocks[last].insts[|z.blocks[last].insts| - 1] == Ret(rv)
  }

  /** The steps of a function declaration whose types are known. */
  lemma FunctionDeclarationCases(st: State, s: Stmt)
    requires s.FunctionDeclaration? && TypeOfAll(s.arguments).Ok? && TypeOf(s.returnType).Ok?
    ensures var fn := Function(s.name, TypeOf(s.returnType).value, TypeOfAll(s.arguments).value, InternalLinkage);
            var f, entry := |st.functions|, |st.blocks|;
            var g3 := LowerParameters(FunctionEntry(st, fn), f, entry, s.arguments);
            LowerFunctionDeclaration(st, s) ==
              if g3.Fail? then Fail(g3.error)
              else
                var g4 := LowerBlock(g3.st, s.body);
                if g4.Fail? then Fail(g4.error)
                else
                  var s5 := Emit(g4.st, Cur(g4.st), Ret(g4.st.returnValue));
                  Done(s5.(frames := RemoveBlock(s5.frames, entry)), FunctionValue(f))
  {
  }

  /** `ret rv` and removeBlock after a body that left `s4`, lowered from the parameters' state `s3`. */
  lemma FunctionCloses(st: State, fn: Function, s3: State, s4: State, rv: Value)
    requires Valid(st)
    requires var s2 := FunctionEntry(st, fn);
             Valid(s2) && Grows(s2, s3) && Valid(s3) && |s3.blocks| == |s2.blocks| && Cur(s3) == |st.blocks| &&
             Valid(s4) && Grows(s3, s4)
    ensures var s5 := Emit(s4, Cur(s4), Ret(rv));
            var z := s5.(frames := RemoveBlock(s5.frames, |st.blocks|));
            FunctionClosed(st, fn, Cur(s4), rv, z) && z.returnValue == s4.returnValue
  {
    var entry := |st.blocks|;
    var s2 := FunctionEntry(st, fn);
    EnterFunction(st, fn);
    GrowsTrans(s2, s3, s4);
    GrowsCur(s3, s4);
    var s5 := Emit(s4, Cur(s4), Ret(rv));
    EmitCurGrows(s2, s4, Ret(rv));
    LeaveFunction(st, s2, s5, entry);
    assert s5.blocks[entry].name == s2.blocks[entry].name && s5.blocks[entry].parent == s2.blocks[entry].parent;
  }

  /**
   * NFunctionDeclaration::codeGen (codegen.cpp:175-204), for parameters
   * without initializers: an unknown parameter type, then an unknown return
   * type, is the error; otherwise the body is lowered after the parameter
   * code, its error is the declaration's error, and a lowered declaration
   * is `FunctionClosed` with the function as its value.
   */
  lemma FunctionDeclarationLowering(st: State, s: Stmt)
    requires Valid(st) && s.FunctionDeclaration? && Uninitialised(s.arguments)
    ensures var g := LowerFunctionDeclaration(st, s);
            var tys, rt := TypeOfAll(s.arguments), TypeOf(s.returnType);
            (tys.Err? ==> g == Fail(tys.error)) &&
            (tys.Ok? && rt.Err? ==> g == Fail(rt.error)) &&
            (tys.Ok? && rt.Ok? ==>
               var fn := Function(s.name, rt.value, tys.value, InternalLinkage);
               var g4 := LowerBlock(Entered(FunctionEntry(st, fn), |st.functions|, tys.value, s.arguments), s.body);
               (g4.Fail? ==> g == Fail(g4.error)) &&
               (g4.Done? ==> g.Done? && g.value == FunctionValue(|st.functions|) && g.st.returnValue == g4.st.returnValue &&
                             FunctionClosed(st, fn, Cur(g4.st), g4.st.returnValue, g.st)))
  {
    var tys, rt := TypeOfAll(s.arguments), TypeOf(s.returnType);
    if tys.Ok? && rt.Ok? {
      var fn := Function(s.name, rt.value, tys.value, InternalLinkage);
      var f := |st.functions|;
      var s2 := FunctionEntry(st, fn);
      EnterFunction(st, fn);
      FunctionDeclarationCases(st, s);
      ParametersLowering(s2, f, s.arguments);
      var s3 := Entered(s2, f, tys.value, s.arguments);
      ParametersGrows(s2, f, |st.blocks|, s.arguments);
      BlockGrows(s3, s.body);
      var g4 := LowerBlock(s3, s.body);
      if g4.Done? {
        FunctionCloses(st, fn, s3, g4.st, g4.st.returnValue);
      }
    }
  }

  /**
   * With the return-value cell held once for the whole context (see
   * `Context`), it is not reset for a new function: a function whose body
   * has no statement returns, from its entry block, whatever value the last
   * return statement lowered before it left in the cell (codegen.cpp:199,
   * 159).
   */
  lemma ReturnCellIsNotReset(st: State, s: Stmt)
    requires Valid(st) && s.FunctionDeclaration? && Uninitialised(s.arguments) && s.body.statements == []
    requires TypeOfAll(s.arguments).Ok? && TypeOf(s.returnType).Ok?
    ensures var g := LowerFunctionDeclaration(st, s);
            var fn := Function(s.name, TypeOf(s.returnType).value, TypeOfAll(s.arguments).value, InternalLinkage);
            g.Done? && g.st.returnValue == st.returnValue && FunctionClosed(st, fn, |st.blocks|, st.returnValue, g.st)
  {
    var tys, rt := TypeOfAll(s.arguments), TypeOf(s.returnType);
    var fn := Function(s.name, rt.value, tys.value, InternalLinkage);
    var s2 := FunctionEntry(st, fn);
    EnterFunction(st, fn);
    FunctionDeclarationLowering(st, s);
    var s3 := Entered(s2, |st.functions|, tys.value, s.arguments);
    assert LowerBlock(s3, s.body) == Done(s3, NullValue);
  }

  // ---- generateCode ----

  /**
   * generateCode (codegen.cpp:13-23): `main` is added as an external
   * function returning i32 with its entry block; the root block's error is
   * the program's error; a lowered program leaves the frames it found and
   * ends the last block of the root with `ret i32 0`.
   */
  lemma ProgramLowering(st: State, root: Block)
    requires Valid(st)
    ensures var g := LowerProgram(st, root);
            var s2 := FunctionEntry(st, MainFunction());
            var g3 := LowerBlock(s2, root);
            (g3.Fail? ==> g == Fail(g3.error)) &&
            (g3.Done? ==> g.Done? && g.st.returnValue == g3.st.returnValue &&
                          FunctionClosed(st, MainFunction(), Cur(g3.st), ConstInt(Int32, 0), g.st))
  {
    var s2 := FunctionEntry(st, MainFunction());
    EnterFunction(st, MainFunction());
    GrowsRefl(s2);
    BlockGrows(s2, root);
    var g3 := LowerBlock(s2, root);
    if g3.Done? {
      FunctionCloses(st, MainFunction(), s2, g3.st, ConstInt(Int32, 0));
    }
  }
}
