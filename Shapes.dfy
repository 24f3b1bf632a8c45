/**
 * The shapes of the IR an if or a while leaves behind: definitions only;
 * `ControlFlow` proves that the lowering builds them.
 */
module Shapes {
  import opened Ast
  import opened Ir
  import opened Context
  import opened Properties

  /**
   * Reference definition of the `icmp ne v, 0` an if or a while branches
   * on, as it would be appended at index `k` of block `b`: no code and an
   * `i1` constant when `v` is an integer constant, one instruction and its
   * result otherwise.
   */
  function Compared(b: nat, k: nat, v: Value): (seq<Inst>, Value) {
    if v.ConstInt? then ([], ConstInt(Int1, if v.n != 0 then 1 else 0))
    else ([ICmpNE0(v)], InstValue(b, k))
  }

  /**
   * What pushing a frame for block `n`, lowering straight-line code and
   * popping again leaves: the same frames and functions, no new block, and
   * plain code appended to `n` and to no other block.
   */
  ghost predicate PlainRound(t: State, n: nat, z: State)
    requires n < |t.blocks|
  {
    z.frames == t.frames && z.functions == t.functions && |z.blocks| == |t.blocks| &&
    (forall b :: 0 <= b < |t.blocks| && b != n ==> z.blocks[b] == t.blocks[b]) &&
    z.blocks[n].name == t.blocks[n].name && z.blocks[n].parent == t.blocks[n].parent &&
    t.blocks[n].insts <= z.blocks[n].insts && Plain(z.blocks[n].insts[|t.blocks[n].insts|..])
  }

  /**
   * The state after the then-branch of an if started in `st`, with the
   * condition's code `code` and value `v`, in function `f`, once its frame
   * is popped: the comparison and the conditional branch closing the
   * current block, the then block holding plain code, and empty else and
   * ifcont blocks that belong to no function yet.
   */
  ghost predicate ThenDone(st: State, code: seq<Inst>, v: Value, f: nat, z: State)
    requires Valid(st)
  {
    var c, n := Cur(st), |st.blocks|;
    var cmp := Compared(c, |st.blocks[c].insts| + |code|, v);
    z.frames == st.frames && z.functions == st.functions && |z.blocks| == n + 3 &&
    (forall b :: 0 <= b < n && b != c ==> z.blocks[b] == st.blocks[b]) &&
    z.blocks[c] == st.blocks[c].(insts := st.blocks[c].insts + code + cmp.0 + [CondBr(cmp.1, n, n + 1)]) &&
    z.blocks[n].name == "then" && z.blocks[n].parent == Some(f) && Plain(z.blocks[n].insts) &&
    z.blocks[n + 1] == BasicBlock("else", None, []) &&
    z.blocks[n + 2] == BasicBlock("ifcont", None, [])
  }

  /**
   * The state and value an if started in `st` ends with, for a condition
   * with code `code` and value `v` in function `f`: the current block gets
   * the condition's code, the comparison and a conditional branch to then
   * (`n`) and else (`n + 1`); then and else belong to `f` and each ends in
   * its only branch, to ifcont (`n + 2`), else holding nothing more when
   * there is no else-branch; ifcont belongs to `f`, is empty, and its frame
   * stays on the stack; the value is the function.
   */
  ghost predicate IfShaped(st: State, code: seq<Inst>, v: Value, f: nat, noElse: bool, z: State, value: Value)
    requires Valid(st)
  {
    var c, n := Cur(st), |st.blocks|;
    var cmp := Compared(c, |st.blocks[c].insts| + |code|, v);
    z.frames == st.frames + [Frame(n + 2, map[])] && z.functions == st.functions && |z.blocks| == n + 3 &&
    (forall b :: 0 <= b < n && b != c ==> z.blocks[b] == st.blocks[b]) &&
    z.blocks[c] == st.blocks[c].(insts := st.blocks[c].insts + code + cmp.0 + [CondBr(cmp.1, n, n + 1)]) &&
    z.blocks[n].name == "then" && z.blocks[n].parent == Some(f) &&
    WellTerminated(z.blocks[n]) && z.blocks[n].insts[|z.blocks[n].insts| - 1] == Br(n + 2) &&
    z.blocks[n + 1].name == "else" && z.blocks[n + 1].parent == Some(f) &&
    WellTerminated(z.blocks[n + 1]) && z.blocks[n + 1].insts[|z.blocks[n + 1].insts| - 1] == Br(n + 2) &&
    (noElse ==> z.blocks[n + 1].insts == [Br(n + 2)]) &&
    z.blocks[n + 2] == BasicBlock("ifcont", Some(f), []) &&
    value == FunctionValue(f)
  }

  /**
   * The state after the else-branch, once its frame is popped: the then
   * block closed by its branch to ifcont, the else block in `f` holding
   * plain code (none without an else-branch), ifcont still empty and in no
   * function.
   */
  ghost predicate ElseDone(st: State, code: seq<Inst>, v: Value, f: nat, noElse: bool, z: State)
    requires Valid(st)
  {
    var c, n := Cur(st), |st.blocks|;
    var cmp := Compared(c, |st.blocks[c].insts| + |code|, v);
    z.frames == st.frames && z.functions == st.functions && |z.blocks| == n + 3 &&
    (forall b :: 0 <= b < n && b != c ==> z.blocks[b] == st.blocks[b]) &&
    z.blocks[c] == st.blocks[c].(insts := st.blocks[c].insts + code + cmp.0 + [CondBr(cmp.1, n, n + 1)]) &&
    z.blocks[n].name == "then" && z.blocks[n].parent == Some(f) &&
    WellTerminated(z.blocks[n]) && z.blocks[n].insts[|z.blocks[n].insts| - 1] == Br(n + 2) &&
    z.blocks[n + 1].name == "else" && z.blocks[n + 1].parent == Some(f) && Plain(z.blocks[n + 1].insts) &&
    (noElse ==> z.blocks[n + 1].insts == []) &&
    z.blocks[n + 2] == BasicBlock("ifcont", None, [])
  }

  /**
   * The state a while started in `st` lowers its body in, once the body's
   * frame is popped again, for a condition with code `code` and value `v`:
   * the current block ends with the branch to loopCond (`n`); loopCond, in
   * the function of the current block, holds the condition's code, the
   * comparison and the conditional branch to loop (`n + 1`) and whilecont
   * (`n + 2`); loop and whilecont are empty and in no function.
   */
  ghost predicate LoopReady(st: State, code: seq<Inst>, v: Value, t: State)
    requires Valid(st)
  {
    var c, n := Cur(st), |st.blocks|;
    var cmp := Compared(n, |code|, v);
    t.frames == st.frames && t.functions == st.functions && |t.blocks| == n + 3 &&
    (forall b :: 0 <= b < n && b != c ==> t.blocks[b] == st.blocks[b]) &&
    t.blocks[c] == st.blocks[c].(insts := st.blocks[c].insts + [Br(n)]) &&
    t.blocks[n] == BasicBlock("loopCond", ParentOf(st, c), code + cmp.0 + [CondBr(cmp.1, n + 1, n + 2)]) &&
    t.blocks[n + 1] == BasicBlock("loop", None, []) &&
    t.blocks[n + 2] == BasicBlock("whilecont", None, [])
  }

  /**
   * The state and value a while started in `st` ends with, in function
   * `f`: the current block ends with the branch to loopCond; loopCond holds
   * the condition's code, the comparison and the conditional branch, and is
   * well terminated; loop ends in its only branch, the back edge to
   * loopCond; loop, loopCond and whilecont belong to `f`; whilecont is
   * empty and its frame stays on the stack; the value is the function.
   */
  ghost predicate WhileShaped(st: State, code: seq<Inst>, v: Value, f: nat, z: State, value: Value)
    requires Valid(st)
  {
    var c, n := Cur(st), |st.blocks|;
    var cmp := Compared(n, |code|, v);
    z.frames == st.frames + [Frame(n + 2, map[])] && z.functions == st.functions && |z.blocks| == n + 3 &&
    (forall b :: 0 <= b < n && b != c ==> z.blocks[b] == st.blocks[b]) &&
    z.blocks[c] == st.blocks[c].(insts := st.blocks[c].insts + [Br(n)]) &&
    z.blocks[n] == BasicBlock("loopCond", Some(f), code + cmp.0 + [CondBr(cmp.1, n + 1, n + 2)]) &&
    WellTerminated(z.blocks[n]) &&
    z.blocks[n + 1].name == "loop" && z.blocks[n + 1].parent == Some(f) &&
    WellTerminated(z.blocks[n + 1]) && z.blocks[n + 1].insts[|z.blocks[n + 1].insts| - 1] == Br(n) &&
    z.blocks[n + 2] == BasicBlock("whilecont", Some(f), []) &&
    value == FunctionValue(f)
  }

  // ---- For any condition and any branches ----

  /** Block `b` of `z` exists and its last instruction is `inst`. */
  ghost predicate EndsWith(z: State, b: nat, inst: Inst) {
    b < |z.blocks| && |z.blocks[b].insts| > 0 && z.blocks[b].insts[|z.blocks[b].insts| - 1] == inst
  }

  /** Block `b` of `z` exists and its last instruction is a conditional branch to `t` and `e`. */
  ghost predicate EndsBranching(z: State, b: nat, t: nat, e: nat) {
    b < |z.blocks| && |z.blocks[b].insts| > 0 &&
    var last := z.blocks[b].insts[|z.blocks[b].insts| - 1];
    last.CondBr? && last.ifTrue == t && last.ifFalse == e
  }

  /**
   * What an if leaves whatever its condition and branches hold, when its
   * condition left block `c` of function `f` current and its blocks start
   * at `n`: `c` ends with the conditional branch to then and else; then
   * and else belong to `f` and each ends with a branch to ifcont, the then
   * block itself even when the then-branch moved on to other blocks;
   * ifcont belongs to `f`, is empty and is the current block.
   */
  ghost predicate IfJoined(c: nat, n: nat, f: nat, z: State) {
    c < n && n + 2 < |z.blocks| && Cur(z) == n + 2 &&
    EndsBranching(z, c, n, n + 1) &&
    z.blocks[n].name == "then" && z.blocks[n].parent == Some(f) && EndsWith(z, n, Br(n + 2)) &&
    z.blocks[n + 1].name == "else" && z.blocks[n + 1].parent == Some(f) && EndsWith(z, n + 1, Br(n + 2)) &&
    z.blocks[n + 2] == BasicBlock("ifcont", Some(f), [])
  }

  /**
   * What a while leaves whatever its condition and body hold, when it
   * started in block `c` of function `f` and its blocks start at `n`: `c`
   * ends with the branch to loopCond; loopCond belongs to `f` and ends with
   * the conditional branch to loop and whilecont; loop belongs to `f` and
   * ends with the back edge, in the loop block itself even when the body
   * moved on to other blocks; whilecont belongs to `f`, is empty and is the
   * current block.
   */
  ghost predicate WhileJoined(c: nat, n: nat, f: nat, z: State) {
    c < n && n + 2 < |z.blocks| && Cur(z) == n + 2 &&
    EndsWith(z, c, Br(n)) &&
    z.blocks[n].name == "loopCond" && z.blocks[n].parent == Some(f) && EndsBranching(z, n, n + 1, n + 2) &&
    z.blocks[n + 1].name == "loop" && z.blocks[n + 1].parent == Some(f) && EndsWith(z, n + 1, Br(n)) &&
    z.blocks[n + 2] == BasicBlock("whilecont", Some(f), [])
  }
}
