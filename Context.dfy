/**
 * The state that code generation mutates (CodeGenContext of codegen.h, which
 * is not part of this model): the block arena, the module's functions, the
 * stack of (block, locals) frames and the return-value cell.
 *
 * Of the frame-stack helpers only their stack behaviour is assumed, and each
 * assumption is written out here as a definition:
 *  - `currentBlock()` and `locals()` are the block and the locals of the top frame;
 *  - `getVar(name)` searches the frames from the innermost outwards and
 *    returns the binding of the first frame that has the name (or null);
 *  - `removeBlock(b)` pops frames until it has popped the topmost frame whose
 *    block is `b`;
 *  - `locals()[name]` on a missing name inserts a null binding (std::map);
 *  - `setCurrentReturnValue` and `getCurrentReturnValue` write and read one
 *    cell of the whole context, null when the context is made, which
 *    `pushBlock`, `popBlock` and `removeBlock` neither save nor reset.
 */
module Context {
  import opened Ast
  import opened Ir

  datatype Frame = Frame(block: nat, locals: map<string, Value>)

  datatype State = State(blocks: seq<BasicBlock>, functions: seq<Function>,
                         frames: seq<Frame>, returnValue: Value)

  /** Every frame names an existing block, and every block an existing function. */
  ghost predicate Wired(st: State) {
    (forall i :: 0 <= i < |st.frames| ==> st.frames[i].block < |st.blocks|) &&
    (forall b :: 0 <= b < |st.blocks| && st.blocks[b].parent.Some? ==> st.blocks[b].parent.value < |st.functions|)
  }

  /** Wired, and there is a current block to emit into. */
  ghost predicate Valid(st: State) {
    |st.frames| > 0 && Wired(st)
  }

  /**
   * currentBlock(): the block of the top frame.  The helpers below are total;
   * the value they give outside a `Valid` state (0 here, no change for the
   * updates) is never reached, as the growth lemmas show.
   */
  function Cur(st: State): nat {
    if |st.frames| == 0 then 0 else st.frames[|st.frames| - 1].block
  }

  /** The function block `b` belongs to, if any. */
  function ParentOf(st: State, b: nat): Option<nat> {
    if b < |st.blocks| then st.blocks[b].parent else None
  }

  /** getVar(name): the innermost binding of `name`, or null when no frame binds it. */
  function GetVar(frames: seq<Frame>, name: string): Value
    decreases |frames|
  {
    if |frames| == 0 then NullValue
    else if name in frames[|frames| - 1].locals then frames[|frames| - 1].locals[name]
    else GetVar(frames[..|frames| - 1], name)
  }

  /** pushBlock(b): a new frame for `b` with no locals. */
  function Push(st: State, block: nat): (r: State)
    ensures |r.frames| == |st.frames| + 1 && Cur(r) == block
    ensures Wired(st) && block < |st.blocks| ==> Valid(r)
  {
    st.(frames := st.frames + [Frame(block, map[])])
  }

  /** popBlock(): drop the top frame. */
  function Pop(st: State): (r: State)
    ensures |st.frames| > 0 ==> |r.frames| == |st.frames| - 1
    ensures Wired(st) ==> Wired(r)
  {
    if |st.frames| == 0 then st else st.(frames := st.frames[..|st.frames| - 1])
  }

  /** `locals()[name] = v`: bind in the top frame, replacing any binding there. */
  function Bind(st: State, name: string, v: Value): (r: State)
    ensures |r.frames| == |st.frames| && Cur(r) == Cur(st)
    ensures |st.frames| > 0 ==> r.frames[|r.frames| - 1].locals == st.frames[|st.frames| - 1].locals[name := v]
    ensures Wired(st) ==> Wired(r)
  {
    if |st.frames| == 0 then st
    else
      var top := st.frames[|st.frames| - 1];
      st.(frames := st.frames[|st.frames| - 1 := top.(locals := top.locals[name := v])])
  }

  /** The value read by `locals()[name]`: the top frame's binding, or null. */
  function LocalsRead(st: State, name: string): Value {
    if |st.frames| > 0 && name in st.frames[|st.frames| - 1].locals
    then st.frames[|st.frames| - 1].locals[name]
    else NullValue
  }

  /** The state after reading `locals()[name]`: a missing name gets a null binding. */
  function LocalsTouch(st: State, name: string): (r: State)
    ensures |r.frames| == |st.frames| && Cur(r) == Cur(st)
    ensures Wired(st) ==> Wired(r)
  {
    if |st.frames| > 0 && name in st.frames[|st.frames| - 1].locals then st else Bind(st, name, NullValue)
  }

  /** removeBlock(b): pop frames until the topmost frame of `b` has been popped. */
  function RemoveBlock(frames: seq<Frame>, b: nat): seq<Frame>
    decreases |frames|
  {
    if |frames| == 0 then []
    else if frames[|frames| - 1].block == b then frames[..|frames| - 1]
    else RemoveBlock(frames[..|frames| - 1], b)
  }

  /** The value of the next instruction appended to block `b`. */
  function NextValue(st: State, b: nat): Value {
    InstValue(b, if b < |st.blocks| then |st.blocks[b].insts| else 0)
  }

  /** Append one instruction to block `b`. */
  function Emit(st: State, b: nat, inst: Inst): (r: State)
    ensures |r.blocks| == |st.blocks| && r.frames == st.frames && r.functions == st.functions
    ensures r.returnValue == st.returnValue
    ensures b < |st.blocks| ==> r.blocks[b] == st.blocks[b].(insts := st.blocks[b].insts + [inst])
    ensures forall k :: 0 <= k < |st.blocks| && k != b ==> r.blocks[k] == st.blocks[k]
    ensures Wired(st) ==> Wired(r)
  {
    if b < |st.blocks| then st.(blocks := st.blocks[b := st.blocks[b].(insts := st.blocks[b].insts + [inst])])
    else st
  }

  /** BasicBlock::Create: a new empty block at the end of the arena. */
  function AddBlock(st: State, name: string, parent: Option<nat>): (r: State)
    ensures r.blocks == st.blocks + [BasicBlock(name, parent, [])]
    ensures r.frames == st.frames && r.functions == st.functions
    ensures Wired(st) && (parent.Some? ==> parent.value < |st.functions|) ==> Wired(r)
  {
    st.(blocks := st.blocks + [BasicBlock(name, parent, [])])
  }

  /** `getBasicBlockList().push_back(b)`: block `b` now belongs to function `f`. */
  function SetParent(st: State, b: nat, f: nat): (r: State)
    ensures |r.blocks| == |st.blocks| && r.frames == st.frames && r.functions == st.functions
    ensures r.returnValue == st.returnValue
    ensures b < |st.blocks| ==> r.blocks[b] == st.blocks[b].(parent := Some(f))
    ensures forall k :: 0 <= k < |st.blocks| && k != b ==> r.blocks[k] == st.blocks[k]
    ensures Wired(st) && f < |st.functions| ==> Wired(r)
  {
    if b < |st.blocks| then st.(blocks := st.blocks[b := st.blocks[b].(parent := Some(f))])
    else st
  }

  /** Function::Create: a new function at the end of the module. */
  function AddFunction(st: State, f: Function): (r: State)
    ensures r.functions == st.functions + [f]
    ensures r.blocks == st.blocks && r.frames == st.frames
    ensures Wired(st) ==> Wired(r)
  {
    st.(functions := st.functions + [f])
  }

  /**
   * What any lowering step does to the state it starts from: blocks and
   * functions are only added; the frames below the top one stay, the top
   * frame keeps its block (its locals may change) and every frame above it
   * is for a block created since; no existing block other than the current
   * one changes, and the current one only gets instructions appended.
   */
  ghost predicate Grows(st: State, st': State)
    requires Valid(st)
  {
    var h := |st.frames|;
    var c := Cur(st);
    |st.blocks| <= |st'.blocks| &&
    st.functions <= st'.functions &&
    h <= |st'.frames| &&
    st'.frames[..h - 1] == st.frames[..h - 1] &&
    st'.frames[h - 1].block == c &&
    (forall i :: h <= i < |st'.frames| ==> st'.frames[i].block >= |st.blocks|) &&
    (forall b :: 0 <= b < |st.blocks| && b != c ==> st'.blocks[b] == st.blocks[b]) &&
    st'.blocks[c].name == st.blocks[c].name &&
    st'.blocks[c].parent == st.blocks[c].parent &&
    st.blocks[c].insts <= st'.blocks[c].insts
  }

  lemma GrowsRefl(st: State)
    requires Valid(st)
    ensures Grows(st, st)
  {
  }

  lemma GrowsTrans(a: State, b: State, c: State)
    requires Valid(a) && Valid(b)
    requires Grows(a, b) && Grows(b, c)
    ensures Grows(a, c)
  {
    var ha, hb := |a.frames|, |b.frames|;
    assert c.frames[..ha - 1] == c.frames[..hb - 1][..ha - 1];
    assert b.frames[..ha - 1] == b.frames[..hb - 1][..ha - 1];
    if ha < hb {
      assert c.frames[ha - 1] == c.frames[..hb - 1][ha - 1];
      assert b.frames[ha - 1] == b.frames[..hb - 1][ha - 1];
    }
    forall i | ha <= i < |c.frames|
      ensures c.frames[i].block >= |a.blocks|
    {
      if i < hb - 1 {
        assert c.frames[i] == c.frames[..hb - 1][i];
        assert b.frames[i] == b.frames[..hb - 1][i];
      }
    }
  }

  lemma EmitGrows(a: State, x: State, blk: nat, inst: Inst)
    requires Valid(a) && Grows(a, x) && blk < |x.blocks|
    requires blk == Cur(a) || blk >= |a.blocks|
    ensures Grows(a, Emit(x, blk, inst))
  {
  }

  lemma AddBlockGrows(a: State, x: State, name: string, parent: Option<nat>)
    requires Valid(a) && Grows(a, x)
    ensures Grows(a, AddBlock(x, name, parent))
  {
  }

  lemma SetParentGrows(a: State, x: State, b: nat, f: nat)
    requires Valid(a) && Grows(a, x) && |a.blocks| <= b < |x.blocks|
    ensures Grows(a, SetParent(x, b, f))
  {
  }

  lemma AddFunctionGrows(a: State, x: State, f: Function)
    requires Valid(a) && Grows(a, x)
    ensures Grows(a, AddFunction(x, f))
  {
  }

  lemma PushGrows(a: State, x: State, blk: nat)
    requires Valid(a) && Grows(a, x) && blk >= |a.blocks|
    ensures Grows(a, Push(x, blk))
  {
    assert Push(x, blk).frames[..|a.frames| - 1] == x.frames[..|a.frames| - 1];
  }

  lemma BindGrows(a: State, x: State, name: string, v: Value)
    requires Valid(a) && Grows(a, x)
    ensures Grows(a, Bind(x, name, v))
  {
    var y := Bind(x, name, v);
    assert y.frames[..|a.frames| - 1] == x.frames[..|a.frames| - 1];
  }

  lemma TouchGrows(a: State, x: State, name: string)
    requires Valid(a) && Grows(a, x)
    ensures Grows(a, LocalsTouch(x, name))
  {
    if name !in x.frames[|x.frames| - 1].locals {
      BindGrows(a, x, name, NullValue);
    }
  }

  /**
   * What pushing a frame for the existing block `n`, lowering a body and
   * popping again does: the frames of `x` stay, every frame left above them
   * is for `n` or for a block created since, and of the existing blocks only
   * `n` changes, by having instructions appended.
   */
  ghost predicate GrowsAround(x: State, n: nat, z: State)
    requires Valid(x) && n < |x.blocks|
  {
    |x.blocks| <= |z.blocks| &&
    x.functions <= z.functions &&
    |x.frames| <= |z.frames| &&
    z.frames[..|x.frames|] == x.frames &&
    (forall i :: |x.frames| <= i < |z.frames| ==> z.frames[i].block == n || z.frames[i].block >= |x.blocks|) &&
    (forall b :: 0 <= b < |x.blocks| && b != n ==> z.blocks[b] == x.blocks[b]) &&
    z.blocks[n].name == x.blocks[n].name &&
    z.blocks[n].parent == x.blocks[n].parent &&
    x.blocks[n].insts <= z.blocks[n].insts
  }

  lemma PushPopAround(x: State, n: nat, y: State)
    requires Valid(x) && n < |x.blocks|
    requires Valid(Push(x, n)) && Grows(Push(x, n), y)
    ensures |y.frames| > 0 && GrowsAround(x, n, Pop(y))
  {
    var p, z := Push(x, n), Pop(y);
    var hx := |x.frames|;
    assert p.frames[..hx] == x.frames;
    assert z.frames[..hx] == y.frames[..hx];
    forall i | hx <= i < |z.frames|
      ensures z.frames[i].block == n || z.frames[i].block >= |x.blocks|
    {
      assert z.frames[i] == y.frames[i];
    }
  }

  lemma AroundRefl(x: State, n: nat)
    requires Valid(x) && n < |x.blocks|
    ensures GrowsAround(x, n, x)
  {
  }

  /** A push-lower-pop round for a block created since `a` is a growth of `a`. */
  lemma AroundGrows(a: State, x: State, n: nat, z: State)
    requires Valid(a) && Valid(x) && Grows(a, x)
    requires |a.blocks| <= n < |x.blocks|
    requires GrowsAround(x, n, z)
    ensures Grows(a, z)
  {
    var ha, hx := |a.frames|, |x.frames|;
    assert z.frames[..ha - 1] == z.frames[..hx][..ha - 1];
    assert x.frames[..ha - 1] == x.frames[..hx][..ha - 1];
    assert z.frames[ha - 1] == z.frames[..hx][ha - 1];
    forall i | ha <= i < |z.frames|
      ensures z.frames[i].block >= |a.blocks|
    {
      if i < hx {
        assert z.frames[i] == z.frames[..hx][i];
      }
    }
  }

  /**
   * Leaving a function: the frame pushed for its entry block is where
   * removeBlock stops, so the frames return to what they were before.
   */
  lemma LeaveFunction(st: State, s2: State, s5: State, entry: nat)
    requires Wired(st) && Valid(s2) && Valid(s5)
    requires entry == |st.blocks| && |s2.blocks| == entry + 1 && s2.blocks[..entry] == st.blocks
    requires st.functions <= s2.functions
    requires s2.frames == st.frames + [Frame(entry, map[])]
    requires Grows(s2, s5)
    ensures RemoveBlock(s5.frames, entry) == st.frames
    ensures |st.blocks| < |s5.blocks| && st.functions <= s5.functions
    ensures forall b :: 0 <= b < |st.blocks| ==> s5.blocks[b] == st.blocks[b]
    ensures Wired(s5.(frames := st.frames))
    ensures Valid(st) ==> Grows(st, s5.(frames := st.frames))
  {
    var h := |st.frames|;
    assert s5.frames[..h] == s2.frames[..h] == st.frames;
    RemoveBlockStopsAt(s5.frames, entry, h);
    forall b | 0 <= b < |st.blocks|
      ensures s5.blocks[b] == st.blocks[b]
    {
      assert s2.blocks[b] == s2.blocks[..entry][b];
    }
  }

  /** The frame of `b` at depth `k`, with no frame of `b` above it, is where removeBlock stops. */
  lemma {:induction false} RemoveBlockStopsAt(frames: seq<Frame>, b: nat, k: nat)
    requires k < |frames| && frames[k].block == b
    requires forall i :: k < i < |frames| ==> frames[i].block != b
    ensures RemoveBlock(frames, b) == frames[..k]
    decreases |frames|
  {
    if k < |frames| - 1 {
      var rest := frames[..|frames| - 1];
      assert rest[..k] == frames[..k];
      RemoveBlockStopsAt(rest, b, k);
    }
  }

  /** getVar returns the binding of the innermost frame that binds the name. */
  lemma {:induction false} GetVarInnermost(frames: seq<Frame>, name: string, k: nat)
    requires k < |frames| && name in frames[k].locals
    requires forall j :: k < j < |frames| ==> name !in frames[j].locals
    ensures GetVar(frames, name) == frames[k].locals[name]
    decreases |frames|
  {
    if k < |frames| - 1 {
      GetVarInnermost(frames[..|frames| - 1], name, k);
    }
  }

  /** getVar yields null when no frame binds the name. */
  lemma {:induction false} GetVarUnbound(frames: seq<Frame>, name: string)
    requires forall j :: 0 <= j < |frames| ==> name !in frames[j].locals
    ensures GetVar(frames, name) == NullValue
    decreases |frames|
  {
    if |frames| > 0 {
      GetVarUnbound(frames[..|frames| - 1], name);
    }
  }
}
