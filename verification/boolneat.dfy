/** Descriptors with the heads of threaded lists, and when the generator's lists are in order (lcode.cc). */
module BoolNeat {
  import opened BoolVm
  import opened BoolCode
  import opened BoolAct
  import opened BoolRuns
  import opened BoolSound
  import opened BoolThreads

  /** An expression descriptor as the generator keeps it: the heads of its two lists. */
  datatype Desc = Desc(k: Kind, t: int, f: int)

  /** The descriptor stands for `e`: its lists are threaded through the code, and so is a pending comparison. */
  ghost predicate Holds(code: seq<Instr>, e: Exp, d: Desc) {
    && d.k == e.k && Threads(code, d.t, e.t) && Threads(code, d.f, e.f)
    && (e.k.VJmp? ==> Threads(code, e.k.pc, [e.k.pc]))
  }

  /** All lists wait, no jump is in two of them, and the end of the code is what the descriptor says. */
  ghost predicate Neat(fs: Func, e: Exp) {
    && (forall j :: j in fs.jpc ==> Pending(fs.code, j) && j !in e.t && j !in e.f)
    && (forall j :: j in e.t ==> Pending(fs.code, j) && j !in e.f)
    && (forall j :: j in e.f ==> Pending(fs.code, j))
    && (e.k.VReloc? ==>
         fs.jpc == [] && 0 <= e.k.pc == |fs.code| - 1 && (fs.code[e.k.pc].GetGlobal? || fs.code[e.k.pc].Not?))
    && (e.k.VJmp? ==>
         fs.jpc == [] && 1 <= e.k.pc == |fs.code| - 1 && Pending(fs.code, e.k.pc) && fs.code[e.k.pc - 1].Compare?
                      && e.k.pc !in e.t && e.k.pc !in e.f)
  }

  /** The jumps that belong to a descriptor and to the current position. */
  function Mine(fs: Func, e: Exp): seq<int> {
    fs.jpc + e.t + e.f + (if e.k.VJmp? then [e.k.pc] else [])
  }

  lemma KeptTrans(a: seq<Instr>, b: seq<Instr>, d: seq<Instr>, one: seq<int>, other: seq<int>)
    requires JumpsKept(a, b, one) && JumpsKept(b, d, other)
    requires forall j :: j in other ==> j in one || j >= |a|
    ensures JumpsKept(a, d, one)
  {
  }

  lemma KeptMore(a: seq<Instr>, b: seq<Instr>, one: seq<int>, other: seq<int>)
    requires JumpsKept(a, b, one) && forall j :: j in one ==> j in other
    ensures JumpsKept(a, b, other)
  {
  }

  /** A list stays threaded while other jumps are patched. */
  lemma ThreadsKept(before: seq<Instr>, after: seq<Instr>, head: int, list: seq<int>, mine: seq<int>)
    requires Threads(before, head, list) && JumpsKept(before, after, mine) && forall j :: j in list ==> j !in mine
    ensures Threads(after, head, list)
  {
    forall i | 0 <= i < |before| && i in list ensures after[i] == before[i] {
      var k :| 0 <= k < |list| && list[k] == i;
    }
    ThreadsKeep(before, after, head, list);
  }

  lemma HoldsKept(before: seq<Instr>, after: seq<Instr>, e: Exp, d: Desc, mine: seq<int>)
    requires Holds(before, e, d) && JumpsKept(before, after, mine)
    requires forall j :: j in mine ==> j !in e.t && j !in e.f && (e.k.VJmp? ==> j != e.k.pc)
    ensures Holds(after, e, d)
  {
    hide JumpsKept, Threads;
    ThreadsKept(before, after, d.t, e.t, mine);
    ThreadsKept(before, after, d.f, e.f, mine);
    if e.k.VJmp? {
      ThreadsKept(before, after, e.k.pc, [e.k.pc], mine);
    }
  }

  /** Resolving the current-position jumps leaves the other lists waiting. */
  lemma ViewNeat(fs: Func, list: seq<int>)
    requires forall j :: j in list ==> Pending(fs.code, j) && j !in fs.jpc
    ensures forall j :: j in list ==> Pending(View(fs), j)
  {
    forall j | j in list ensures Pending(View(fs), j) {
      assert View(fs)[j] == PatchedAt(fs.code, fs.jpc, |fs.code|, NO_REG, |fs.code|, j);
    }
  }

  lemma EmitNeat(fs: Func, e: Exp, ins: Instr, k: Kind)
    requires Neat(fs, e) && !e.k.VJmp? && !k.VJmp?
    requires k.VReloc? ==> k.pc == |fs.code| && (ins.GetGlobal? || ins.Not?)
    ensures Neat(Emit(fs, ins), e.(k := k))
  {
    hide View;
    ViewNeat(fs, e.t);
    ViewNeat(fs, e.f);
    assert forall j :: Pending(View(fs), j) ==> Pending(View(fs) + [ins], j);
  }

  /** A meaningful descriptor is in order. */
  lemma MeansNeat(c: Ctx, fs: Func, e: Exp, res: Leave)
    requires Means(c, fs, e, res)
    ensures Neat(fs, e)
  {
    if e.k.VReloc? || e.k.VJmp? {
      MeansTail(c, fs, e, res);
    } else {
      assert CoreOf(fs, e.k) == View(fs);
      RawShape(c, fs, e.t, e.f);
    }
  }

  lemma MeansTail(c: Ctx, fs: Func, e: Exp, res: Leave)
    requires Means(c, fs, e, res) && (e.k.VReloc? || e.k.VJmp?)
    ensures Neat(fs, e)
  {
    ViewOK(fs);
    var core := CoreOf(fs, e.k);
    assert forall j :: 0 <= j < |core| ==> core[j] == fs.code[j];
    assert forall j :: j in e.t || j in e.f ==> Pending(core, j);
  }

  /** After a jump on the value: the lists that are left and the current position. */
  lemma ArrivesNeat(c: Ctx, fs: Func, t: seq<int>, f: seq<int>, res: Leave)
    requires Arrives(c, fs, t, f, res)
    ensures Neat(fs, Exp(VTrue, t, f))
  {
    RawShape(c, fs, t, f);
  }

  // ---- the states between two steps of the generator

  lemma DischargeNeat(fs: Func, e: Exp)
    requires Neat(fs, e)
    ensures Neat(DischargeVars(fs, e).0, DischargeVars(fs, e).1)
  {
    hide Emit;
    if e.k.VGlobal? {
      EmitNeat(fs, e, GetGlobal(0, e.k.g), VReloc(|fs.code|));
      EmitNeat(fs, e, GetGlobal(0, e.k.g), VReloc(|fs.code|));
    }
  }

  lemma SetANeat(fs: Func, e: Exp, reg: int)
    requires Neat(fs, e) && e.k.VReloc?
    ensures Neat(fs.(code := fs.code[e.k.pc := SetA(fs.code[e.k.pc], reg)]), e.(k := VNonReloc(reg)))
  {
    var code := fs.code[e.k.pc := SetA(fs.code[e.k.pc], reg)];
    assert forall j :: Pending(fs.code, j) ==> Pending(code, j);
  }

  lemma Discharge2RegNeat(fs: Func, e: Exp, reg: int)
    requires Neat(fs, e)
    ensures Neat(Discharge2Reg(fs, e, reg).0, Discharge2Reg(fs, e, reg).1)
  {
    hide Emit, Neat;
    DischargeNeat(fs, e);
    var (fs1, e1) := DischargeVars(fs, e);
    match e1.k
    case VFalse => EmitNeat(fs1, e1, LoadBool(reg, false, false), VNonReloc(reg));
    case VTrue => EmitNeat(fs1, e1, LoadBool(reg, true, false), VNonReloc(reg));
    case VK(v) => EmitNeat(fs1, e1, LoadK(reg, v), VNonReloc(reg));
    case VReloc(pc) => RelocIn(fs1, e1); SetANeat(fs1, e1, reg);
    case VNonReloc(r) => StayNeat(fs1, e1, reg); if r != reg { EmitNeat(fs1, e1, Move(reg, r), VNonReloc(reg)); }
    case _ =>
  }

  lemma RelocIn(fs: Func, e: Exp)
    requires Neat(fs, e) && e.k.VReloc?
    ensures 0 <= e.k.pc < |fs.code|
  {
  }

  lemma StayNeat(fs: Func, e: Exp, reg: int)
    requires Neat(fs, e) && e.k.VNonReloc?
    ensures Neat(fs, e.(k := VNonReloc(reg)))
  {
  }

  lemma CondJumpNeat(fs: Func, e: Exp, ins: Instr)
    requires Neat(fs, e) && !e.k.VJmp?
    ensures var (fs1, pc) := CondJump(fs, ins);
            && pc == [|fs.code| + 1] && fs1.jpc == [] && fs1.code == View(fs) + [ins, Jmp(PENDING)]
            && Pending(fs1.code, |fs.code| + 1)
            && forall j :: j in e.t || j in e.f ==> Pending(fs1.code, j) && j < |fs.code|
  {
    hide View;
    ViewNeat(fs, e.t);
    ViewNeat(fs, e.f);
    var code := View(fs) + [ins, Jmp(PENDING)];
    assert View(fs) + [ins] + [Jmp(PENDING)] == code;
    assert [|fs.code| + 1] + [] == [|fs.code| + 1];
    assert forall j :: Pending(View(fs), j) ==> Pending(code, j);
  }

  lemma AlignedSetA(code: seq<Instr>, model: seq<Instr>, pc: int, reg: int)
    requires Aligned(code, model) && 0 <= pc < |model| && (model[pc].GetGlobal? || model[pc].Not?)
    ensures code[pc] == model[pc] && Aligned(code[pc := SetA(code[pc], reg)], model[pc := SetA(model[pc], reg)])
    ensures JumpsKept(code, code[pc := SetA(code[pc], reg)], [])
  {
    assert AlignedAt(code, model, pc);
    var code1, model1 := code[pc := SetA(code[pc], reg)], model[pc := SetA(model[pc], reg)];
    forall i | 0 <= i < |code| ensures AlignedAt(code1, model1, i) {
      assert AlignedAt(code, model, i);
    }
  }

  lemma AlignedTurn(code: seq<Instr>, model: seq<Instr>, pc: int)
    requires Aligned(code, model) && 1 <= pc < |model| && model[pc - 1].Compare?
    ensures code[pc - 1] == model[pc - 1]
    ensures var turned := model[pc - 1].(cond := !model[pc - 1].cond);
            Aligned(code[pc - 1 := turned], model[pc - 1 := turned]) && JumpsKept(code, code[pc - 1 := turned], [])
  {
    assert AlignedAt(code, model, pc - 1);
    var turned := model[pc - 1].(cond := !model[pc - 1].cond);
    var code1, model1 := code[pc - 1 := turned], model[pc - 1 := turned];
    forall i | 0 <= i < |code| ensures AlignedAt(code1, model1, i) {
      assert AlignedAt(code, model, i);
    }
  }

  lemma AlignedCut(code: seq<Instr>, model: seq<Instr>)
    requires Aligned(code, model) && model != []
    ensures Aligned(code[..|code| - 1], model[..|model| - 1])
  {
    var code1, model1 := code[..|code| - 1], model[..|model| - 1];
    forall i | 0 <= i < |code1| ensures AlignedAt(code1, model1, i) {
      assert AlignedAt(code, model, i);
    }
  }

  // ---- the generator's recursion

  /** An expression may count the function as it is when it begins as the older code. */
  lemma Rebase(c: Ctx, fs: Func, h: Hold)
    requires Starts(c, fs, h)
    ensures Starts(c.(base := fs), fs, h)
  {
    var c1 := c.(base := fs);
    var view := View(fs);
    forall i | 0 <= i < |fs.code| && i !in fs.jpc && i + 1 !in fs.jpc ensures view[i] == fs.code[i] {
      assert view[i] == PatchedAt(fs.code, fs.jpc, |fs.code|, NO_REG, |fs.code|, i);
    }
    hide Exits, Runs;
    assert HeldIn(c1, fs) == HeldIn(c, fs);
    ExitsSame(c, c1, view);
  }

  lemma ExitsSame(c: Ctx, c1: Ctx, code: seq<Instr>)
    requires Exits(c, code, [], []) && c1.p0 == c.p0 && c1.out == c.out
    ensures Exits(c1, code, [], [])
  {
  }

  /** The jumps of a descriptor are new, or waited where the expression began. */
  lemma MeansMine(c: Ctx, fs: Func, e: Exp, res: Leave)
    requires Means(c, fs, e, res)
    ensures forall j :: j in Mine(fs, e) ==> j in c.base.jpc || j >= |c.base.code|
  {
    hide Runs, Exits;
  }

  /** The jumps of the surroundings belong to no list of the descriptor. */
  lemma OutApart(c: Ctx, fs: Func, e: Exp, res: Leave)
    requires Means(c, fs, e, res)
    ensures forall j :: j in c.out ==>
              Pending(fs.code, j) && j !in fs.jpc && j !in e.t && j !in e.f && (e.k.VJmp? ==> j != e.k.pc)
  {
    if e.k.VReloc? || e.k.VJmp? {
      ViewOK(fs);
      var core := CoreOf(fs, e.k);
      assert forall j :: 0 <= j < |core| ==> core[j] == fs.code[j];
      assert forall j :: j in c.out ==> Pending(core, j);
    } else {
      assert CoreOf(fs, e.k) == View(fs);
      RawShape(c, fs, e.t, e.f);
    }
  }

  lemma ArrivesMine(c: Ctx, fs: Func, t: seq<int>, f: seq<int>, res: Leave)
    requires Arrives(c, fs, t, f, res)
    ensures forall j :: j in fs.jpc ==> j in c.base.jpc || j >= |c.base.code|
  {
  }
}
