/** What the generated code evaluates: the reads of globals and the comparisons that a run performs, in order (lcode.cc,
    lvm.cc). */
module BoolTrace {
  import opened BoolVm
  import opened BoolCode
  import opened BoolAct
  import opened BoolRuns
  import opened BoolSound
  import BoolRight

  /** What another part of the program could notice: metamethods run on reads of globals and on comparisons. */
  datatype Event = Read(g: nat) | Relate(op: Relation, x: Value, y: Value)

  function Events(env: Env, ins: Instr, regs: Regs): seq<Event> {
    match ins
    case GetGlobal(_, g) => [Read(g)]
    case Compare(op, _, b, c) => [Relate(op, GetRK(regs, b), GetRK(regs, c))]
    case _ => []
  }

  /** The events of a run, as `Exec` goes. */
  function Trace(env: Env, code: seq<Instr>, i: int, regs: Regs): seq<Event>
    decreases |code| - i
  {
    if i < 0 || i >= |code| || code[i] == Jmp(PENDING) then []
    else
      var (n, next) := Step(env, code[i], i, regs);
      Events(env, code[i], regs) + (if n <= i then [] else Trace(env, code, n, next))
  }

  // ---- changes to the code that no run notices

  predicate Unheard(ins: Instr) { !ins.GetGlobal? && !ins.Compare? }

  /** An instruction before and after such a change: the same; a jump that waited, now aimed behind the code; a test in
      front of such a jump, with another destination; the last load, with another register; or the last comparison,
      turned. */
  predicate Alike(code: seq<Instr>, i: int, after: Instr)
    requires 0 <= i < |code|
  {
    || after == code[i]
    || (code[i] == Jmp(PENDING) && after.Jmp? && |code| <= after.dest)
    || (code[i].TestSet? && i + 1 < |code| && code[i + 1] == Jmp(PENDING) && (after.Test? || after.TestSet?)
        && (if after.Test? then after.a == code[i].b && after.c == code[i].c
            else after.b == code[i].b && after.c == code[i].c))
    || (i + 1 == |code| && code[i].GetGlobal? && after.GetGlobal? && after.g == code[i].g)
    || (i + 1 == |code| && code[i].Not? && after.Not? && after.b == code[i].b)
    || (i + 2 == |code| && code[i].Compare? && code[i + 1] == Jmp(PENDING) && after.Compare?
        && after.(cond := code[i].cond) == code[i])
  }

  predicate Quieted(code: seq<Instr>, later: seq<Instr>) {
    && |code| <= |later|
    && (forall i :: 0 <= i < |code| ==> Alike(code, i, later[i]))
    && (forall i :: |code| <= i < |later| ==> Unheard(later[i]))
  }

  lemma {:induction false} SilentBehind(env: Env, code: seq<Instr>, n: int, i: int, regs: Regs)
    requires 0 <= n <= i && forall k :: n <= k < |code| ==> Unheard(code[k])
    ensures Trace(env, code, i, regs) == []
    decreases |code| - i
  {
    if i < |code| && code[i] != Jmp(PENDING) {
      var (next, after) := Step(env, code[i], i, regs);
      if next > i {
        SilentBehind(env, code, n, next, after);
      }
    }
  }

  lemma {:induction false} TraceQuieted(env: Env, code: seq<Instr>, later: seq<Instr>, i: int, regs: Regs)
    requires Quieted(code, later) && 0 <= i
    ensures Trace(env, later, i, regs) == Trace(env, code, i, regs)
    decreases |code| - i
  {
    if i >= |code| {
      SilentBehind(env, later, |code|, i, regs);
    } else {
      assert Alike(code, i, later[i]);
      if code[i] == Jmp(PENDING) {
        if later[i] != code[i] {
          SilentBehind(env, later, |code|, later[i].dest, regs);
        }
      } else {
        AlikeStep(env, code, i, later[i], regs);
        var (n, next) := Step(env, code[i], i, regs);
        var (n', next') := Step(env, later[i], i, regs);
        hide Step, Events, Alike;
        if n > i {
          TraceQuieted(env, code, later, n, next);
        }
        if n' > i {
          TraceQuieted(env, code, later, n', next');
        }
      }
    }
  }

  predicate Ends(code: seq<Instr>, i: int) { i >= |code| || (0 <= i && code[i] == Jmp(PENDING)) }

  /** The step is the same, or the run is at its end after both. */
  lemma AlikeStep(env: Env, code: seq<Instr>, i: int, after: Instr, regs: Regs)
    requires 0 <= i < |code| && Alike(code, i, after) && code[i] != Jmp(PENDING)
    ensures after != Jmp(PENDING) && Events(env, after, regs) == Events(env, code[i], regs)
    ensures var (n, next) := Step(env, code[i], i, regs);
            var (n', next') := Step(env, after, i, regs);
            (n, next) == (n', next') || (n > i && n' > i && Ends(code, n) && Ends(code, n'))
  {
  }

  /** The runs of both pieces of code perform the same. */
  ghost predicate Mute(code: seq<Instr>, later: seq<Instr>) {
    forall env, i: nat, regs :: Trace(env, later, i, regs) == Trace(env, code, i, regs)
  }

  lemma QuietedMute(code: seq<Instr>, later: seq<Instr>)
    requires Quieted(code, later)
    ensures Mute(code, later)
  {
    forall env, i: nat, regs ensures Trace(env, later, i, regs) == Trace(env, code, i, regs) {
      TraceQuieted(env, code, later, i, regs);
    }
  }

  lemma MuteTrans(a: seq<Instr>, b: seq<Instr>, c: seq<Instr>)
    requires Mute(a, b) && Mute(b, c)
    ensures Mute(a, c)
  {
    forall env, i: nat, regs ensures Trace(env, c, i, regs) == Trace(env, a, i, regs) {
      assert Trace(env, c, i, regs) == Trace(env, b, i, regs);
    }
  }

  // ---- the steps of the generator

  lemma ViewMute(fs: Func)
    requires FuncOK(fs)
    ensures Mute(fs.code, View(fs))
  {
    forall i | 0 <= i < |fs.code| ensures Alike(fs.code, i, View(fs)[i]) {
      assert View(fs)[i] == PatchedAt(fs.code, fs.jpc, |fs.code|, NO_REG, |fs.code|, i);
      assert i + 1 in fs.jpc ==> Pending(fs.code, i + 1);
    }
    QuietedMute(fs.code, View(fs));
  }

  lemma AppendMute(code: seq<Instr>, more: seq<Instr>)
    requires forall i :: 0 <= i < |more| ==> Unheard(more[i])
    ensures Mute(code, code + more)
  {
    QuietedMute(code, code + more);
  }

  lemma EmitMute(fs: Func, ins: Instr)
    requires FuncOK(fs) && Unheard(ins)
    ensures Mute(fs.code, Emit(fs, ins).code)
  {
    hide Mute;
    ViewMute(fs);
    AppendMute(View(fs), [ins]);
    MuteTrans(fs.code, View(fs), View(fs) + [ins]);
  }

  lemma CondJumpMute(fs: Func, test: Instr)
    requires FuncOK(fs) && Unheard(test)
    ensures Mute(fs.code, CondJump(fs, test).0.code)
  {
    hide Mute;
    CondJumpIs(fs, test);
    ViewMute(fs);
    AppendMute(View(fs), [test, Jmp(PENDING)]);
    MuteTrans(fs.code, View(fs), View(fs) + [test, Jmp(PENDING)]);
  }

  lemma JumpMute(fs: Func)
    ensures Mute(fs.code, Jump(fs).0.code)
  {
    hide Mute;
    AppendMute(fs.code, [Jmp(PENDING)]);
  }

  /** A descriptor whose value and lists are where they belong in the unresolved code. */
  predicate Tidy(fs: Func, e: Exp) {
    && FuncOK(fs) && (e.k.VReloc? || e.k.VJmp? ==> fs.jpc == []) && Tail(View(fs), e.k)
    && Waiting(fs.code, e.t) && Waiting(fs.code, e.f)
  }

  lemma ShapeTidy(c: Ctx, fs: Func, e: Exp)
    requires BoolSound.Shape(c, fs, e)
    ensures Tidy(fs, e)
  {
    hide Runs, Framed;
    ViewOK(fs);
    CoreWaits(fs, e, e.t);
    CoreWaits(fs, e, e.f);
  }

  lemma CoreWaits(fs: Func, e: Exp, list: seq<int>)
    requires FuncOK(fs) && (e.k.VReloc? || e.k.VJmp? ==> View(fs) == fs.code) && Tail(View(fs), e.k)
    requires Waiting(CoreOf(fs, e.k), list)
    ensures Waiting(fs.code, list)
  {
    var core := CoreOf(fs, e.k);
    if e.k.VReloc? || e.k.VJmp? {
      forall j | j in list ensures Pending(fs.code, j) && (Carries(fs.code, j) ==> fs.code[j - 1].a == NO_REG) {
        assert Pending(core, j);
      }
    } else {
      assert core == View(fs);
      RawLists(fs, list);
    }
  }

  lemma RelocMute(fs: Func, e: Exp, reg: int)
    requires Tidy(fs, e) && e.k.VReloc?
    ensures 0 <= e.k.pc < |fs.code| && Mute(fs.code, fs.code[e.k.pc := SetA(fs.code[e.k.pc], reg)])
  {
    hide Mute;
    ViewOK(fs);
    QuietedMute(fs.code, fs.code[e.k.pc := SetA(fs.code[e.k.pc], reg)]);
  }

  lemma SameMute(code: seq<Instr>)
    ensures Mute(code, code)
  {
  }

  lemma Discharge2RegMute(fs: Func, e: Exp, reg: int)
    requires Tidy(fs, e) && !e.k.VGlobal?
    ensures Mute(fs.code, Discharge2Reg(fs, e, reg).0.code)
  {
    hide Mute, Emit, View, Waiting, FuncOK;
    SameMute(fs.code);
    match e.k
    case VFalse => EmitMute(fs, LoadBool(reg, false, false));
    case VTrue => EmitMute(fs, LoadBool(reg, true, false));
    case VK(v) => EmitMute(fs, LoadK(reg, v));
    case VReloc(pc) => RelocMute(fs, e, reg);
    case VNonReloc(r) =>
      if r != reg {
        EmitMute(fs, Move(reg, r));
      }
    case VLocal(r) =>
      if r != reg {
        EmitMute(fs, Move(reg, r));
      }
    case VJmp(_) =>
  }

  /** Both exit lists aimed behind the code, where only boolean loads are. */
  lemma PatchExitsMute(fs: Func, more: seq<Instr>, e: Exp, reg: int, pF: int, pT: int)
    requires Waiting(fs.code, e.t) && Waiting(fs.code, e.f) && (forall i :: 0 <= i < |more| ==> Unheard(more[i]))
    requires (pF == PENDING || |fs.code| <= pF) && (pT == PENDING || |fs.code| <= pT)
    ensures Mute(fs.code, PatchExits(fs.(code := fs.code + more), e, reg, pF, pT).code)
  {
    var code := fs.code + more;
    var one := Patch(code, e.f, |code|, reg, pF);
    var two := Patch(one, e.t, |code|, reg, pT);
    forall i | 0 <= i < |code|
      ensures if i < |fs.code| then Alike(fs.code, i, two[i]) else Unheard(two[i])
    {
      assert one[i] == PatchedAt(code, e.f, |code|, reg, pF, i);
      assert two[i] == PatchedAt(one, e.t, |code|, reg, pT, i);
      assert i in e.f || i in e.t ==> Pending(fs.code, i);
      assert i + 1 in e.f || i + 1 in e.t ==> Pending(fs.code, i + 1);
    }
    QuietedMute(fs.code, two);
  }

  lemma ResolveMute(fs: Func, e: Exp, reg: int)
    requires Waiting(fs.code, e.t) && Waiting(fs.code, e.f) && (e.k.VJmp? ==> fs.jpc == [])
    ensures Mute(fs.code, ResolveExits(fs, e, reg).code)
  {
    hide Mute, Waiting, LoadLabels, NeedValue;
    SameMute(fs.code);
    LoadLabelsIs(fs, reg, e.k.VJmp?);
    var loads := [LoadBool(reg, false, true), LoadBool(reg, true, false)];
    var more := if e.k.VJmp? then loads else [Jmp(PENDING)] + loads;
    var n := |fs.code| + |more|;
    PatchExitsMute(fs, more, e, reg, n - 2, n - 1);
    PatchExitsMute(fs, [], e, reg, PENDING, PENDING);
    assert fs.code + [] == fs.code && fs.(code := fs.code) == fs;
    assert fs.code + [Jmp(PENDING)] + loads == fs.code + ([Jmp(PENDING)] + loads);
  }

  lemma Exp2RegMute(c: Ctx, fs: Func, e: Exp, reg: int, res: Leave)
    requires BoolSound.Shape(c, fs, e) && Sound(c, fs, e, res) && 0 <= reg && !e.k.VGlobal?
    ensures Mute(fs.code, Exp2Reg(fs, e, reg).0.code)
  {
    hide Mute, Waiting, Lists, Sound, ResolveExits, Discharge2Reg, Placed;
    ShapeTidy(c, fs, e);
    if e.k.VJmp? {
      var e2 := e.(t := e.t + [e.k.pc]);
      JumpWaits(fs, e);
      assert Discharge2Reg(fs, e, reg) == (fs, e) by { JumpStays(fs, e, reg); }
      ResolveMute(fs, e2, reg);
    } else {
      Discharge2RegMute(fs, e, reg);
      Discharge2RegPlaced(c, fs, e, reg, res);
      var (fs1, e1) := Discharge2Reg(fs, e, reg);
      InRegWaits(c, fs1, e.t, e.f, reg, Settled(e.k, res));
      ResolveMute(fs1, e1, reg);
      MuteTrans(fs.code, fs1.code, ResolveExits(fs1, e1, reg).code);
    }
  }

  lemma JumpStays(fs: Func, e: Exp, reg: int)
    requires e.k.VJmp?
    ensures Discharge2Reg(fs, e, reg) == (fs, e)
  {
  }

  lemma JumpWaits(fs: Func, e: Exp)
    requires Tidy(fs, e) && e.k.VJmp?
    ensures Waiting(fs.code, e.t + [e.k.pc]) && Waiting(fs.code, e.f)
  {
    ViewOK(fs);
  }

  lemma InRegWaits(c: Ctx, fs: Func, t: seq<int>, f: seq<int>, reg: int, res: Leave)
    requires InReg(c, fs, t, f, reg, res)
    ensures FuncOK(fs) && Waiting(fs.code, t) && Waiting(fs.code, f)
  {
    hide Runs, Framed;
    RawLists(fs, t);
    RawLists(fs, f);
  }

  /** The code once a variable is loaded: everything else that is done with the value is not noticed. */
  function LoadedCode(fs: Func, e: Exp): seq<Instr> { DischargeVars(fs, e).0.code }

  lemma LoadedOnce(fs: Func, e: Exp)
    requires !e.k.VGlobal?
    ensures LoadedCode(fs, e) == fs.code
  {
  }

  lemma Exp2NextRegMute(c: Ctx, fs: Func, e: Exp, res: Leave)
    requires Means(c, fs, e, res)
    ensures Mute(LoadedCode(fs, e), Exp2NextReg(fs, e).0.code)
  {
    hide Mute, Exp2Reg, BoolSound.Shape, Sound;
    DischargeVarsMeans(c, fs, e, res);
    var (fs1, e1) := DischargeVars(fs, e);
    FreedIs(c, fs1, e1, Settled(e.k, res));
    FreeSound(c, fs1, e1, Settled(e.k, res), c.fr + 1);
    Exp2RegMute(c, fs1.(freereg := c.fr + 1), e1, c.fr, Settled(e.k, res));
  }

  lemma Exp2AnyRegMute(c: Ctx, fs: Func, e: Exp, res: Leave)
    requires Means(c, fs, e, res) && Variable(fs, e)
    ensures Mute(LoadedCode(fs, e), Exp2AnyReg(fs, e).0.code)
  {
    hide Mute, Exp2NextReg, BoolSound.Shape, Sound, Exp2Reg;
    DischargeVarsMeans(c, fs, e, res);
    var (fs1, e1) := DischargeVars(fs, e);
    SameMute(fs1.code);
    if e1.k.VNonReloc? && !HasJumps(e1) {
    } else {
      if e.k.VLocal? {
        LocalRegister(c, fs, e, res);
      }
      Exp2NextRegMute(c, fs1, e1, Settled(e.k, res));
      LoadedOnce(fs1, e1);
      assert Exp2NextReg(fs1, e1) == Exp2AnyReg(fs, e);
    }
  }

  lemma Exp2RKMute(c: Ctx, fs: Func, e: Exp, res: Leave)
    requires Means(c, fs, e, res) && Variable(fs, e)
    ensures Mute(LoadedCode(fs, e), Exp2RK(fs, e).0.code)
  {
    hide Mute, Means, Exp2AnyReg;
    if HasJumps(e) {
      Exp2AnyRegMute(c, fs, e, res);
      Exp2AnyRegMeans(c, fs, e, res);
      var (fs1, e1) := Exp2AnyReg(fs, e);
      var res1 := if (e.k.VLocal? || e.k.VNonReloc?) && !HasJumps(e) then res else AtEnd(Final(res), Free);
      Exp2AnyRegMute(c, fs1, e1, res1);
      LoadedOnce(fs1, e1);
      MuteTrans(LoadedCode(fs, e), fs1.code, Exp2AnyReg(fs1, e1).0.code);
    } else {
      DischargeVarsMeans(c, fs, e, res);
      var (fs1, e1) := DischargeVars(fs, e);
      SameMute(fs1.code);
      LoadedOnce(fs1, e1);
      Exp2AnyRegMute(c, fs1, e1, Settled(e.k, res));
    }
  }

  // ---- jumps and negation

  lemma InvertMute(fs: Func, e: Exp)
    requires Tidy(fs, e)
    ensures Mute(fs.code, InvertJump(fs, e).code)
  {
    hide Mute;
    SameMute(fs.code);
    if e.k.VJmp? {
      ViewOK(fs);
      QuietedMute(fs.code, InvertJump(fs, e).code);
    }
  }

  lemma Discharge2AnyRegMute(fs: Func, e: Exp)
    requires Tidy(fs, e) && !e.k.VGlobal?
    ensures Mute(fs.code, Discharge2AnyReg(fs, e).0.code)
  {
    hide Mute, Discharge2Reg;
    SameMute(fs.code);
    var fs1 := ReserveRegs(fs, 1);
    assert View(fs1) == View(fs);
    if !e.k.VNonReloc? {
      Discharge2RegMute(fs1, e, fs.freereg);
    }
  }

  lemma JumpOnCondMute(c: Ctx, fs: Func, e: Exp, cond: bool, k: End, res: Leave)
    requires Means(c, fs, e, res) && Fits(fs, e, k) && (k == EReg || k == ELoad || k == ENot || (cond && k == EConst))
    ensures Mute(fs.code, JumpOnCond(fs, e, cond).0.code)
  {
    hide Mute, Lists, Reaches, CondJump, Discharge2AnyReg;
    if k == ENot {
      NotCore(c, fs, e, res);
      DropLast(fs, e);
      var fs1 := fs.(code := fs.code[..|fs.code| - 1]);
      DropMute(fs, e);
      CondJumpMute(fs1, Test(fs.code[e.k.pc].b, !cond));
      MuteTrans(fs.code, fs1.code, JumpOnCond(fs, e, cond).0.code);
    } else {
      ShapeTidy(c, fs, e);
      Discharge2AnyRegMute(fs, e);
      Discharge2AnyRegMeans(c, fs, e, res);
      var (fs1, e1) := Discharge2AnyReg(fs, e);
      var fs2 := FreeExp(fs1, e1);
      CondJumpMute(fs2, TestSet(NO_REG, e1.k.r, cond));
      MuteTrans(fs.code, fs1.code, JumpOnCond(fs, e, cond).0.code);
    }
  }

  lemma DropMute(fs: Func, e: Exp)
    requires FuncOK(fs) && fs.jpc == [] && Tail(View(fs), e.k) && Fits(fs, e, ENot)
    ensures Mute(fs.code, fs.code[..|fs.code| - 1])
  {
    ViewOK(fs);
    var less := fs.code[..|fs.code| - 1];
    QuietedMute(less, fs.code);
  }

  lemma GoIfTrueMute(c: Ctx, fs: Func, e: Exp, k: End, res: Leave)
    requires Means(c, fs, e, res) && Fits(fs, e, k)
    ensures Mute(LoadedCode(fs, e), GoIfTrue(fs, e).0.code)
  {
    hide Mute, Means, DischargeVars, JumpOnCond, InvertJump;
    DischargeVarsMeans(c, fs, e, res);
    DischargeFits(fs, e, k);
    var (fs1, e1) := DischargeVars(fs, e);
    var k1, res1 := Discharged(k), Settled(e.k, res);
    SameMute(fs1.code);
    match k1 {
      case EConst =>
      case ETrue =>
      case EFalse => JumpMute(fs1);
      case ETest =>
        MeansTidy(c, fs1, e1, res1);
        InvertMute(fs1, e1);
      case _ => JumpOnCondMute(c, fs1, e1, false, k1, res1);
    }
  }

  lemma GoIfFalseMute(c: Ctx, fs: Func, e: Exp, k: End, res: Leave)
    requires Means(c, fs, e, res) && Fits(fs, e, k)
    ensures Mute(LoadedCode(fs, e), GoIfFalse(fs, e).0.code)
  {
    hide Mute, Means, DischargeVars, JumpOnCond;
    DischargeVarsMeans(c, fs, e, res);
    DischargeFits(fs, e, k);
    var (fs1, e1) := DischargeVars(fs, e);
    var k1, res1 := Discharged(k), Settled(e.k, res);
    SameMute(fs1.code);
    match k1 {
      case EFalse =>
      case ETest =>
      case ETrue => JumpMute(fs1);
      case _ => JumpOnCondMute(c, fs1, e1, true, k1, res1);
    }
  }

  lemma MeansTidy(c: Ctx, fs: Func, e: Exp, res: Leave)
    requires Means(c, fs, e, res)
    ensures Tidy(fs, e)
  {
    hide BoolSound.Shape, Sound, Tidy;
    ShapeTidy(c, fs, e);
  }

  lemma StripMute(fs: Func, e: Exp)
    requires Waiting(fs.code, e.t) && Waiting(fs.code, e.f)
    ensures Mute(fs.code, Strip(fs.code, e.t, e.f))
  {
    var later := Strip(fs.code, e.t, e.f);
    StripIs(fs.code, e.t, e.f);
    forall i | 0 <= i < |fs.code| ensures Alike(fs.code, i, later[i]) {
      assert later[i] == StripAt(fs.code, e.t, e.f, i);
      assert i + 1 in e.t || i + 1 in e.f ==> Pending(fs.code, i + 1);
    }
    QuietedMute(fs.code, later);
  }

  lemma CodeNotMute(c: Ctx, fs: Func, e: Exp, k: End, res: Leave)
    requires Means(c, fs, e, res) && Fits(fs, e, k)
    ensures Mute(LoadedCode(fs, e), CodeNot(fs, e).0.code)
  {
    hide Mute, Means, DischargeVars, Discharge2AnyReg, InvertJump, Tidy, Waiting, Emit;
    DischargeVarsMeans(c, fs, e, res);
    DischargeFits(fs, e, k);
    var (fs1, e1) := DischargeVars(fs, e);
    MeansTidy(c, fs1, e1, Settled(e.k, res));
    SameMute(fs1.code);
    var fs2 := fs1;
    match Discharged(k) {
      case EFalse => TidyWaits(fs1, e1);
      case ETrue => TidyWaits(fs1, e1);
      case EConst => TidyWaits(fs1, e1);
      case ETest =>
        fs2 := InvertJump(fs1, e1);
        InvertMute(fs1, e1);
        InvertWaits(fs1, e1);
      case _ =>
        fs2 := NegatedMute(c, fs1, e1, Settled(e.k, res));
    }
    StripMute(fs2, e1);
    MuteTrans(fs1.code, fs2.code, Strip(fs2.code, e1.t, e1.f));
  }

  lemma TidyWaits(fs: Func, e: Exp)
    requires Tidy(fs, e)
    ensures Waiting(fs.code, e.t) && Waiting(fs.code, e.f)
  {
  }

  lemma InvertWaits(fs: Func, e: Exp)
    requires Tidy(fs, e) && e.k.VJmp?
    ensures Waiting(InvertJump(fs, e).code, e.t) && Waiting(InvertJump(fs, e).code, e.f)
  {
    ViewOK(fs);
  }

  /** A value in a register, and its negation behind it. */
  lemma NegatedMute(c: Ctx, fs: Func, e: Exp, res: Leave) returns (fs2: Func)
    requires Means(c, fs, e, res) && !e.k.VJmp? && !e.k.VLocal? && !e.k.VGlobal?
    ensures var (g, d) := Discharge2AnyReg(fs, e);
            fs2 == Emit(FreeExp(g, d), Not(0, if d.k.VNonReloc? then d.k.r else 0))
    ensures Mute(fs.code, fs2.code) && Waiting(fs2.code, e.t) && Waiting(fs2.code, e.f)
  {
    hide Mute, Waiting, Discharge2AnyReg, Emit, Lists, Reaches, Tidy;
    MeansTidy(c, fs, e, res);
    Discharge2AnyRegMute(fs, e);
    Discharge2AnyRegMeans(c, fs, e, res);
    var (g, d) := Discharge2AnyReg(fs, e);
    var res1 := if e.k.VNonReloc? || !res.AtEnd? then res else res.(c := Free);
    FreeSound(c, g, d, res1, c.fr);
    var fs1 := FreeExp(g, d);
    var ins := Not(0, d.k.r);
    EmitMute(fs1, ins);
    fs2 := Emit(fs1, ins);
    EmitReloc(c, fs1, d, ins);
    var e2 := d.(k := VReloc(|fs1.code|));
    ShapeTidy(c, fs2, e2);
    TidyWaits(fs2, e2);
    MuteTrans(fs.code, g.code, fs2.code);
  }

  // ---- what is performed

  /** What the run through the code so far performs. */
  function Heard(c: Ctx, fs: Func): seq<Event> { Trace(c.env, fs.code, c.p0, c.regs) }

  function WhenHere(c: Ctx, evs: seq<Event>): seq<Event> { if c.en.Here? then evs else [] }

  lemma MuteHeard(c: Ctx, fs: Func, later: Func)
    requires Mute(fs.code, later.code) && 0 <= c.p0
    ensures Heard(c, later) == Heard(c, fs)
  {
  }

  lemma {:induction false} TracePrefix(env: Env, code: seq<Instr>, whole: seq<Instr>, i: int, regs: Regs)
    requires WellFormed(code) && 0 <= i <= |code| <= |whole| && whole[..|code|] == code
    requires forall k :: i <= k < |code| ==> Onward(code, k)
    ensures var (pos, mid) := Exec(env, code, i, regs);
            Trace(env, whole, i, regs)
            == Trace(env, code, i, regs) + if pos == |code| then Trace(env, whole, |code|, mid) else []
    decreases |code| - i
  {
    if i < |code| {
      assert whole[i] == code[i];
      if code[i] != Jmp(PENDING) {
        assert WellPlaced(code, i) && Onward(code, i);
        var (n, next) := Step(env, code[i], i, regs);
        TracePrefix(env, code, whole, n, next);
        ExecStops(env, code, n, next);
      }
    }
  }

  /** Two instructions at most are added, and the first of them is performed by a run that gets there. */
  lemma AddedHeard(c: Ctx, fs: Func, ins: Instr, more: seq<Instr>)
    requires FuncOK(fs) && Runs(View(fs), c.p0) && (ins.GetGlobal? || ins.Compare?)
               && (more == [] || more == [Jmp(PENDING)])
    requires ins.Compare? ==> more != []
    ensures var (pos, mid) := Exec(c.env, View(fs), c.p0, c.regs);
            Trace(c.env, View(fs) + ([ins] + more), c.p0, c.regs)
            == Heard(c, fs) + if pos == |fs.code| then Events(c.env, ins, mid) else []
  {
    var code := View(fs);
    var whole := code + ([ins] + more);
    ViewMute(fs);
    hide Mute, View;
    assert Heard(c, fs) == Trace(c.env, code, c.p0, c.regs) by { MuteHeard(c, fs, fs.(code := code)); }
    TracePrefix(c.env, code, whole, c.p0, c.regs);
    var (pos, mid) := Exec(c.env, code, c.p0, c.regs);
    if pos == |code| {
      assert whole[pos] == ins;
      var (n, next) := Step(c.env, ins, pos, mid);
      assert Trace(c.env, whole, n, next) == [];
    }
  }

  /** A run is at the end of the code exactly if it is the one that has arrived. */
  lemma Arrived(c: Ctx, code: seq<Instr>, t: seq<int>, f: seq<int>, res: Leave)
    requires Lists(c, code, t, f) && Reaches(c, code, [], t, f, -1, res)
    ensures Exec(c.env, code, c.p0, c.regs).0 == |code| <==> Ended(c, res)
    ensures Runs(code, c.p0) && 0 <= c.p0
  {
    hide Framed, Own, Same;
  }

  /** Loading a variable is heard if the run arrives there. */
  lemma LoadHeard(c: Ctx, fs: Func, e: Exp, res: Leave)
    requires Means(c, fs, e, res)
    ensures Heard(c, fs.(code := LoadedCode(fs, e)))
            == Heard(c, fs) + if e.k.VGlobal? && Ended(c, res) then [Read(e.k.g)] else []
  {
    hide Lists, Reaches, Mute;
    if e.k.VGlobal? {
      assert CoreOf(fs, e.k) == View(fs);
      Arrived(c, View(fs), e.t, e.f, res);
      AddedHeard(c, fs, GetGlobal(0, e.k.g), []);
      assert [GetGlobal(0, e.k.g)] + [] == [GetGlobal(0, e.k.g)];
    }
  }

  /** A comparison is heard, with its operands' values, if the run arrives there. */
  lemma CompareHeard(c: Ctx, fs: Func, op: Relation, cond: bool, o1: RK, o2: RK, v1: Value, v2: Value)
    requires Both(c, fs, o1, o2, v1, v2)
    ensures Heard(c, CondJump(fs, Compare(op, cond, o1, o2)).0) == Heard(c, fs) + WhenHere(c, [Relate(op, v1, v2)])
  {
    hide Lists, Reaches, Mute;
    var ins := Compare(op, cond, o1, o2);
    CondJumpIs(fs, ins);
    Arrived(c, View(fs), [], [], AtEnd(Nil, Free));
    AddedHeard(c, fs, ins, [Jmp(PENDING)]);
    assert [ins] + [Jmp(PENDING)] == [ins, Jmp(PENDING)];
  }

  // ---- what an expression performs

  function Compares(op: RelOp, x: Value, y: Value): Event {
    match op
    case NE => Relate(Equal, x, y)
    case EQ => Relate(Equal, x, y)
    case LT => Relate(Less, x, y)
    case LE => Relate(LessEqual, x, y)
    case GT => Relate(Less, y, x)
    case GE => Relate(LessEqual, y, x)
  }

  /** Left to right, and a second operand only if the first one does not decide. */
  function Evaluation(env: Env, x: Expr, regs: Regs): seq<Event> {
    match x
    case Global(g) => [Read(g)]
    case Negate(e) => Evaluation(env, e, regs)
    case And(a, b) => Evaluation(env, a, regs) + if IsFalse(Eval(env, a, regs)) then [] else Evaluation(env, b, regs)
    case Or(a, b) => Evaluation(env, a, regs) + if IsFalse(Eval(env, a, regs)) then Evaluation(env, b, regs) else []
    case Rel(op, a, b) =>
      Evaluation(env, a, regs) + Evaluation(env, b, regs) + [Compares(op, Eval(env, a, regs), Eval(env, b, regs))]
    case _ => []
  }

  /** The same for the run that `Act` describes. */
  function Performed(env: Env, x: Expr, regs: Regs, hold: Hold): seq<Event> {
    match x
    case Global(g) => [Read(g)]
    case Negate(e) => Performed(env, e, regs, hold)
    case And(a, b) =>
      var g := JumpIf(EndOf(a), Act(env, a, regs, hold), true);
      Performed(env, a, regs, hold) + if g.AtEnd? then Performed(env, b, regs, g.c) else []
    case Or(a, b) =>
      var g := JumpIf(EndOf(a), Act(env, a, regs, hold), false);
      Performed(env, a, regs, hold) + if g.AtEnd? then Performed(env, b, regs, g.c) else []
    case Rel(op, a, b) =>
      var r := Act(env, a, regs, hold);
      var held := OperandHold(a, r);
      Performed(env, a, regs, hold) + Performed(env, b, regs, held)
          + [Compares(op, Final(r), Final(Act(env, b, regs, held)))]
    case _ => []
  }

  /** What the code of `x` performs before a variable at its end is loaded. */
  function Begun(env: Env, x: Expr, regs: Regs, hold: Hold): seq<Event> {
    if x.Global? then [] else Performed(env, x, regs, hold)
  }

  lemma {:induction false} PerformedSame(env: Env, x: Expr, n: nat, before: Regs, after: Regs, hold: Hold)
    requires Scoped(x, n) && Same(n, -1, before, after)
    ensures Performed(env, x, before, hold) == Performed(env, x, after, hold)
    decreases x
  {
    hide Same, JumpIf;
    match x
    case Negate(e) => PerformedSame(env, e, n, before, after, hold);
    case And(a, b) =>
      ActSame(env, a, n, before, after, hold);
      PerformedSame(env, a, n, before, after, hold);
      PerformedSame(env, b, n, before, after, JumpIf(EndOf(a), Act(env, a, before, hold), true).c);
    case Or(a, b) =>
      ActSame(env, a, n, before, after, hold);
      PerformedSame(env, a, n, before, after, hold);
      PerformedSame(env, b, n, before, after, JumpIf(EndOf(a), Act(env, a, before, hold), false).c);
    case Rel(_, a, b) =>
      var held := OperandHold(a, Act(env, a, before, hold));
      ActSame(env, a, n, before, after, hold);
      PerformedSame(env, a, n, before, after, hold);
      ActSame(env, b, n, before, after, held);
      PerformedSame(env, b, n, before, after, held);
    case _ =>
  }

  // ---- the code of an expression performs what `Act` evaluates

  /** What is heard of the code of `x`. */
  ghost predicate Speaks(c: Ctx, fs: Func, x: Expr, h: Hold) {
    Heard(c, Compile(fs, x).0) == Heard(c, fs) + WhenHere(c, Begun(c.env, x, Locals(c), h))
  }

  /** And with the variable at its end loaded. */
  lemma LoadedSpeaks(c: Ctx, fs: Func, x: Expr, h: Hold)
    requires Compiled(c, fs, x, h) && Speaks(c, fs, x, h)
    ensures var (fs1, e1) := Compile(fs, x);
            Heard(c, fs1.(code := LoadedCode(fs1, e1))) == Heard(c, fs) + WhenHere(c, Performed(c.env, x, Locals(c), h))
  {
    hide Means, LoadedCode, Heard;
    CompiledMeans(c, fs, x, h);
    var (fs1, e1) := Compile(fs, x);
    LoadHeard(c, fs1, e1, Act(c.env, x, Locals(c), h));
    if x.Global? {
      assert e1.k == VGlobal(x.g);
    } else {
      NoGlobalEnd(x);
    }
  }

  lemma NoGlobalEnd(x: Expr)
    requires !x.Global?
    ensures EndOf(x) != EGlobal
  {
  }

  lemma StartsBegin(c: Ctx, fs: Func, h: Hold)
    requires Starts(c, fs, h)
    ensures 0 <= c.p0
  {
  }

  lemma NotSpeaks(c: Ctx, fs: Func, x: Expr, h: Hold)
    requires x.Negate? && Compiled(c, fs, x.e, h) && Speaks(c, fs, x.e, h) && 0 <= c.p0
    ensures Speaks(c, fs, x, h)
  {
    hide Means, Mute, LoadedCode, Heard, Compiled, CodeNot;
    CompiledMeans(c, fs, x.e, h);
    LoadedSpeaks(c, fs, x.e, h);
    var (fs1, e1) := Compile(fs, x.e);
    CodeNotMute(c, fs1, e1, EndOf(x.e), Act(c.env, x.e, Locals(c), h));
    MuteHeard(c, fs1.(code := LoadedCode(fs1, e1)), CodeNot(fs1, e1).0);
  }

  /** The jump on the first operand is not heard. */
  lemma FirstSpeaks(c: Ctx, fs: Func, x: Expr, h: Hold)
    requires (x.And? || x.Or?) && Compiled(c, fs, x.a, h) && Speaks(c, fs, x.a, h) && 0 <= c.p0
    ensures var (fs1, e1) := Compile(fs, x.a);
            Heard(c, Infix(fs1, x, e1).0) == Heard(c, fs) + WhenHere(c, Performed(c.env, x.a, Locals(c), h))
  {
    hide Means, Mute, LoadedCode, Heard, Compiled, GoIfTrue, GoIfFalse, Act;
    CompiledMeans(c, fs, x.a, h);
    LoadedSpeaks(c, fs, x.a, h);
    var (fs1, e1) := Compile(fs, x.a);
    if x.And? {
      GoIfTrueMute(c, fs1, e1, EndOf(x.a), Act(c.env, x.a, Locals(c), h));
    } else {
      GoIfFalseMute(c, fs1, e1, EndOf(x.a), Act(c.env, x.a, Locals(c), h));
    }
    MuteHeard(c, fs1.(code := LoadedCode(fs1, e1)), Infix(fs1, x, e1).0);
  }

  lemma SecondSame(c: Ctx, fs: Func, t: seq<int>, f: seq<int>, res: Leave, b: Expr, h: Hold)
    requires Arrives(c, fs, t, f, res) && Scoped(b, fs.nactvar)
    ensures var c2 := Second(c, fs, t, f, res);
            && WhenHere(c2, Performed(c2.env, b, Locals(c2), h))
               == WhenHere(c, if res.AtEnd? then Performed(c.env, b, Locals(c), h) else [])
            && forall g :: Heard(c2, g) == Heard(c, g)
  {
    hide Lists, FuncOK, Performed;
    var c2 := Second(c, fs, t, f, res);
    if c.en.Here? && res.AtEnd? {
      SameBelow(fs.nactvar, c.fr, Locals(c), Locals(c2));
      PerformedSame(c.env, b, fs.nactvar, Locals(c), Locals(c2), h);
    }
  }

  lemma LogicSpeaks(c: Ctx, fs: Func, x: Expr, h: Hold)
    requires (x.And? || x.Or?) && Opened(c, fs, x, h) && Compiled(c, fs, x.a, h) && Speaks(c, fs, x.a, h)
    requires Scoped(x.b, fs.nactvar) && 0 <= c.p0
    requires var fs2 := Infix(Compile(fs, x.a).0, x, Compile(fs, x.a).1).0;
             var (c2, h2) := LogicSecond(c, fs, x, h);
             Compiled(c2, fs2, x.b, h2) && Speaks(c2, fs2, x.b, h2)
    ensures Speaks(c, fs, x, h)
  {
    hide Means, Arrives, Infix, JumpIf, Second, DischargeVars, Compiled, Act, Fits, EndOf, Heard;
    hide Performed, Locals, Opened, Compile, LoadedCode, Speaks;
    FirstSpeaks(c, fs, x, h);
    OpenedArrives(c, fs, x, h);
    var (fs1, e1) := Compile(fs, x.a);
    var (fs2, d1) := Infix(fs1, x, e1);
    var g := JumpIf(EndOf(x.a), Act(c.env, x.a, Locals(c), h), x.And?);
    var (c2, h2) := LogicSecond(c, fs, x, h);
    LoadedSpeaks(c2, fs2, x.b, h2);
    SecondSame(c, fs2, d1.t, d1.f, g, x.b, h2);
    var (fs3, e2) := Compile(fs2, x.b);
    LogicPerformed(c.env, x, Locals(c), h);
    CompiledLogic(c, fs, x, fs2, d1, fs3, e2);
    HeardCode(c, Compile(fs, x).0, fs3.(code := LoadedCode(fs3, e2)));
    SpeaksIs(c, fs, x, h);
  }

  lemma SpeaksIs(c: Ctx, fs: Func, x: Expr, h: Hold)
    requires !x.Global?
    ensures Speaks(c, fs, x, h) <==>
              Heard(c, Compile(fs, x).0) == Heard(c, fs) + WhenHere(c, Performed(c.env, x, Locals(c), h))
  {
    hide Heard, Compile, Performed, Locals;
  }

  lemma OpenedArrives(c: Ctx, fs: Func, x: Expr, h: Hold)
    requires (x.And? || x.Or?) && Opened(c, fs, x, h)
    ensures var (fs1, e1) := Compile(fs, x.a);
            var (fs2, d1) := Infix(fs1, x, e1);
            && Arrives(c, fs2, d1.t, d1.f, JumpIf(EndOf(x.a), Act(c.env, x.a, Locals(c), h), x.And?))
            && fs2.nactvar == fs.nactvar
  {
    hide Arrives, Infix, JumpIf, Act;
  }

  lemma HeardCode(c: Ctx, a: Func, b: Func)
    requires a.code == b.code
    ensures Heard(c, a) == Heard(c, b)
  {
  }

  lemma CompiledLogic(c: Ctx, fs: Func, x: Expr, fs2: Func, d1: Exp, fs3: Func, e2: Exp)
    requires x.And? || x.Or?
    requires var (fs1, e1) := Compile(fs, x.a); Infix(fs1, x, e1) == (fs2, d1)
    requires Compile(fs2, x.b) == (fs3, e2)
    ensures Compile(fs, x).0.code == LoadedCode(fs3, e2)
  {
    hide Infix;
    assert Compile(fs, x) == Posfix(fs3, x, d1, e2);
  }

  lemma LogicPerformed(env: Env, x: Expr, regs: Regs, h: Hold)
    requires x.And? || x.Or?
    ensures var g := JumpIf(EndOf(x.a), Act(env, x.a, regs, h), x.And?);
            Performed(env, x, regs, h) == Performed(env, x.a, regs, h) + if g.AtEnd? then Performed(env, x.b, regs, g.c)
                                                                         else []
  {
  }

  // ---- comparisons

  lemma OperandSpeaks(c: Ctx, fs: Func, a: Expr, h: Hold)
    requires Compiled(c, fs, a, h) && Speaks(c, fs, a, h) && 0 <= c.p0
    ensures var (fs1, e1) := Compile(fs, a);
            Heard(c, Exp2RK(fs1, e1).0) == Heard(c, fs) + WhenHere(c, Performed(c.env, a, Locals(c), h))
  {
    hide Means, Mute, LoadedCode, Heard, Exp2RK, Act;
    CompiledMeans(c, fs, a, h);
    CompiledVariable(c, fs, a, h);
    LoadedSpeaks(c, fs, a, h);
    var (fs1, e1) := Compile(fs, a);
    Exp2RKMute(c, fs1, e1, Act(c.env, a, Locals(c), h));
    MuteHeard(c, fs1.(code := LoadedCode(fs1, e1)), Exp2RK(fs1, e1).0);
  }

  lemma OtherSpeaks(c: Ctx, fs: Func, e: Exp, v: Value, h: Hold, b: Expr, n: nat, held: Hold)
    requires Operand(c, fs, e, v, h) && Scoped(b, n) && n <= c.fr
    ensures var c2 := OtherSide(c, fs);
            && WhenHere(c2, Performed(c2.env, b, Locals(c2), held)) == WhenHere(c, Performed(c.env, b, Locals(c), held))
            && forall g :: Heard(c2, g) == Heard(c, g)
  {
    hide Lists, Performed;
    var c2 := OtherSide(c, fs);
    if c.en.Here? {
      SameBelow(n, c.fr, Locals(c), Locals(c2));
      PerformedSame(c.env, b, n, Locals(c), Locals(c2), held);
    }
  }

  /** The comparison of two operands, the second one just read. */
  lemma CodeCompHeard(c: Ctx, fs1: Func, d1: Exp, v1: Value, h1: Hold, fs3: Func, e2: Exp, res2: Leave, op: Relation,
          cond: bool)
    requires Operand(c, fs1, d1, v1, h1) && Means(OtherSide(c, fs1), fs3, e2, res2) && Variable(fs3, e2)
    requires fs3.nactvar == fs1.nactvar
    ensures var v2 := Final(res2);
            Heard(c, CodeComp(fs3, op, cond, d1, e2).0)
            == Heard(c, Exp2RK(fs3, e2).0)
               + WhenHere(c, [if !cond && op != Equal then Relate(op, v2, v1) else Relate(op, v1, v2)])
  {
    hide Operand, Means, Exp2RK, CondJump, FreeExp, Both, Heard;
    OperandIs(c, fs1, d1, v1, h1);
    OperandAgain(fs3, d1);
    Exp2RKMeans(OtherSide(c, fs1), fs3, e2, res2);
    var (fs2, d2) := Exp2RK(fs3, e2);
    var v2 := Final(res2);
    OperandsCompose(c, fs1, d1, v1, h1, fs2, d2, v2, OperandRest(e2, res2));
    var g := fs2.(freereg := c.fr);
    HeardCode(c, g, fs2);
    if !cond && op != Equal {
      BothTurned(c, g, RKOf(d1), RKOf(d2), v1, v2);
      CompareHeard(c, g, op, true, RKOf(d2), RKOf(d1), v2, v1);
    } else {
      CompareHeard(c, g, op, cond, RKOf(d1), RKOf(d2), v1, v2);
    }
  }

  lemma PosfixRelHeard(c: Ctx, fs1: Func, d1: Exp, v1: Value, h1: Hold, fs3: Func, e2: Exp, res2: Leave, op: RelOp)
    requires Operand(c, fs1, d1, v1, h1) && Means(OtherSide(c, fs1), fs3, e2, res2) && Variable(fs3, e2)
    requires fs3.nactvar == fs1.nactvar
    ensures Heard(c, PosfixRel(fs3, op, d1, e2).0)
            == Heard(c, Exp2RK(fs3, e2).0) + WhenHere(c, [Compares(op, v1, Final(res2))])
  {
    hide Operand, Means, CodeComp, Heard, Exp2RK;
    match op
    case EQ => CodeCompHeard(c, fs1, d1, v1, h1, fs3, e2, res2, Equal, true);
    case NE => CodeCompHeard(c, fs1, d1, v1, h1, fs3, e2, res2, Equal, false);
    case LT => CodeCompHeard(c, fs1, d1, v1, h1, fs3, e2, res2, Less, true);
    case LE => CodeCompHeard(c, fs1, d1, v1, h1, fs3, e2, res2, LessEqual, true);
    case GT => CodeCompHeard(c, fs1, d1, v1, h1, fs3, e2, res2, Less, false);
    case GE => CodeCompHeard(c, fs1, d1, v1, h1, fs3, e2, res2, LessEqual, false);
  }

  lemma RelSpeaks(c: Ctx, fs: Func, x: Expr, h: Hold)
    requires x.Rel? && Compiled(c, fs, x.a, h) && Speaks(c, fs, x.a, h) && 0 <= c.p0
    requires Scoped(x.b, fs.nactvar) && fs.nactvar <= c.fr
    requires var fs2 := Exp2RK(Compile(fs, x.a).0, Compile(fs, x.a).1).0;
             var held := OperandHold(x.a, Act(c.env, x.a, Locals(c), h));
             fs2.nactvar == fs.nactvar && Compiled(OtherSide(c, fs2), fs2, x.b, held)
                 && Speaks(OtherSide(c, fs2), fs2, x.b, held)
    ensures Speaks(c, fs, x, h)
  {
    hide Means, Operand, Exp2RK, PosfixRel, OtherSide, Compiled, Act, Fits, Heard, Performed, Locals;
    OperandSpeaks(c, fs, x.a, h);
    var (fs1, e1) := Compile(fs, x.a);
    var r := Act(c.env, x.a, Locals(c), h);
    CompiledMeans(c, fs, x.a, h);
    CompiledVariable(c, fs, x.a, h);
    Exp2RKMeans(c, fs1, e1, r);
    var (fs2, d1) := Exp2RK(fs1, e1);
    var c2, held := OtherSide(c, fs2), OperandHold(x.a, r);
    OtherBegins(c, fs2);
    OperandSpeaks(c2, fs2, x.b, held);
    OtherSpeaks(c, fs2, d1, Final(r), OperandRest(e1, r), x.b, fs.nactvar, held);
    OtherSame(c, fs2, d1, Final(r), OperandRest(e1, r), x.b, fs.nactvar);
    CompiledMeans(c2, fs2, x.b, held);
    CompiledVariable(c2, fs2, x.b, held);
    var (fs3, e2) := Compile(fs2, x.b);
    var s := Act(c2.env, x.b, Locals(c2), held);
    PosfixRelHeard(c, fs2, d1, Final(r), OperandRest(e1, r), fs3, e2, s, x.op);
    CompiledRel(fs, x, fs2, d1, fs3, e2);
    RelPerformed(c.env, x, Locals(c), h);
  }

  lemma OtherBegins(c: Ctx, fs: Func)
    ensures OtherSide(c, fs).p0 == c.p0
  {
  }

  lemma CompiledRel(fs: Func, x: Expr, fs2: Func, d1: Exp, fs3: Func, e2: Exp)
    requires x.Rel?
    requires var (fs1, e1) := Compile(fs, x.a); Exp2RK(fs1, e1) == (fs2, d1)
    requires Compile(fs2, x.b) == (fs3, e2)
    ensures Compile(fs, x) == PosfixRel(fs3, x.op, d1, e2)
  {
    hide Exp2RK, PosfixRel;
  }

  lemma RelPerformed(env: Env, x: Expr, regs: Regs, h: Hold)
    requires x.Rel?
    ensures var r := Act(env, x.a, regs, h);
            var held := OperandHold(x.a, r);
            Performed(env, x, regs, h)
            == Performed(env, x.a, regs, h) + Performed(env, x.b, regs, held)
               + [Compares(x.op, Final(r), Final(Act(env, x.b, regs, held)))]
  {
  }

  /** For every expression, in every environment and behind any code: a run that arrives performs what `Act` evaluates,
      in that order, and a run that has left nothing. */
  lemma {:induction false} CompileSpeaks(c: Ctx, fs: Func, x: Expr, h: Hold)
    requires Starts(c, fs, h) && Scoped(x, fs.nactvar)
    ensures Speaks(c, fs, x, h)
    decreases x
  {
    hide Starts, Compiled, Opened, Second, OtherSide, Exp2RK, Infix, Speaks, Act;
    StartsBegin(c, fs, h);
    match x
    case Negate(e) =>
      CompileMeans(c, fs, e, h);
      CompileSpeaks(c, fs, e, h);
      NotSpeaks(c, fs, x, h);
    case And(a, b) => BothSpeak(c, fs, x, h);
    case Or(a, b) => BothSpeak(c, fs, x, h);
    case Rel(op, a, b) =>
      CompileMeans(c, fs, a, h);
      CompileSpeaks(c, fs, a, h);
      RelStarts(c, fs, x, h);
      var fs2 := Exp2RK(Compile(fs, a).0, Compile(fs, a).1).0;
      var held := OperandHold(a, Act(c.env, a, Locals(c), h));
      CompileMeans(OtherSide(c, fs2), fs2, b, held);
      CompileSpeaks(OtherSide(c, fs2), fs2, b, held);
      RelSpeaks(c, fs, x, h);
    case _ => LeafSpeaks(c, fs, x, h);
  }

  lemma {:induction false} BothSpeak(c: Ctx, fs: Func, x: Expr, h: Hold)
    requires (x.And? || x.Or?) && Starts(c, fs, h) && Scoped(x, fs.nactvar) && 0 <= c.p0
    ensures Speaks(c, fs, x, h)
    decreases x, 0
  {
    hide Starts, Compiled, Opened, Second, Infix, Speaks, Act, LogicSecond;
    CompileMeans(c, fs, x.a, h);
    CompileSpeaks(c, fs, x.a, h);
    LogicStarts(c, fs, x, h);
    var fs2 := Infix(Compile(fs, x.a).0, x, Compile(fs, x.a).1).0;
    var (c2, h2) := LogicSecond(c, fs, x, h);
    CompileMeans(c2, fs2, x.b, h2);
    CompileSpeaks(c2, fs2, x.b, h2);
    LogicSpeaks(c, fs, x, h);
  }

  lemma LeafSpeaks(c: Ctx, fs: Func, x: Expr, h: Hold)
    requires x.Local? || x.Global? || x.True? || x.False? || x.Const?
    ensures Speaks(c, fs, x, h)
  {
    hide Heard;
  }

  // ---- the order of evaluation

  /** What a run of the code of `x` performs, from its first instruction, with the value put into the next register. */
  function Evaluates(env: Env, fs: Func, x: Expr, regs: Regs): seq<Event> {
    var (fs1, e1) := Compile(fs, x);
    Trace(env, View(Exp2NextReg(fs1, e1).0), |fs.code|, regs)
  }

  lemma EvaluatesIs(env: Env, fs: Func, x: Expr, regs: Regs)
    requires FuncOK(fs) && Scoped(x, fs.nactvar) && fs.nactvar <= fs.freereg
    ensures Evaluates(env, fs, x, regs) == Performed(env, x, regs, Free)
  {
    hide Starts, Means, Mute, Act, LoadedCode, Compiled, Exp2NextReg, InReg, Performed, View, Speaks;
    var c := Entered(env, fs, regs);
    EnteredStarts(env, fs, regs);
    CompileMeans(c, fs, x, Free);
    CompileSpeaks(c, fs, x, Free);
    LoadedSpeaks(c, fs, x, Free);
    CompiledMeans(c, fs, x, Free);
    var (fs1, e1) := Compile(fs, x);
    var r := Act(env, x, regs, Free);
    EndRegister(fs1, e1, EndOf(x));
    Exp2NextRegMute(c, fs1, e1, r);
    var fs2 := Exp2NextReg(fs1, e1).0;
    MuteHeard(c, fs1.(code := LoadedCode(fs1, e1)), fs2);
    Exp2NextRegMeans(c, fs1, e1, r);
    InRegWaits(c, fs2, [], [], c.fr, AtEnd(Final(r), Free));
    ViewMute(fs2);
    MuteHeard(c, fs2, fs2.(code := View(fs2)));
  }

  /** Where no literal takes over a carried value, in particular without literals, the code reads and compares exactly
      what short-circuit evaluation from left to right does, in that order. */
  lemma EvaluationOrder(env: Env, fs: Func, x: Expr, regs: Regs)
    requires FuncOK(fs) && Scoped(x, fs.nactvar) && fs.nactvar <= fs.freereg && BoolRight.Safe(x, false)
    ensures Evaluates(env, fs, x, regs) == Evaluation(env, x, regs)
  {
    hide Evaluates, FuncOK;
    EvaluatesIs(env, fs, x, regs);
    SafePerformed(env, x, regs, fs.nactvar, Free, false);
  }

  lemma {:induction false} SafePerformed(env: Env, x: Expr, regs: Regs, n: nat, hold: Hold, h: bool)
    requires BoolRight.Safe(x, h) && Scoped(x, n) && (hold.Held? ==> h)
    ensures Performed(env, x, regs, hold) == Evaluation(env, x, regs)
    decreases x
  {
    match x
    case Negate(e) => SafePerformed(env, e, regs, n, hold, h);
    case And(_, _) => SafeLogicPerformed(env, x, regs, n, hold, h);
    case Or(_, _) => SafeLogicPerformed(env, x, regs, n, hold, h);
    case Rel(_, a, b) =>
      SafePerformed(env, a, regs, n, hold, h);
      BoolRight.SafeGood(env, a, regs, n, hold, h);
      var r := Act(env, a, regs, hold);
      var held := OperandHold(a, r);
      var h2 := BoolRight.May(a, h).2 && Jumps(a) == (false, false) && Silent(Discharged(EndOf(a)));
      SafePerformed(env, b, regs, n, held, h2);
      BoolRight.SafeGood(env, b, regs, n, held, h2);
      BoolRight.GoodFinal(r, Eval(env, a, regs), BoolRight.May(a, h), EndOf(a));
      BoolRight.GoodFinal(Act(env, b, regs, held), Eval(env, b, regs), BoolRight.May(b, h2), EndOf(b));
    case _ =>
  }

  lemma {:induction false} SafeLogicPerformed(env: Env, x: Expr, regs: Regs, n: nat, hold: Hold, h: bool)
    requires (x.And? || x.Or?) && BoolRight.Safe(x, h) && Scoped(x, n) && (hold.Held? ==> h)
    ensures Performed(env, x, regs, hold) == Evaluation(env, x, regs)
    decreases x, 0
  {
    SafePerformed(env, x.a, regs, n, hold, h);
    BoolRight.SafeGood(env, x.a, regs, n, hold, h);
    var r, v := Act(env, x.a, regs, hold), Eval(env, x.a, regs);
    BoolRight.JumpGood(x.a, h, r, v, x.And?);
    var g := JumpIf(EndOf(x.a), r, x.And?);
    LogicPerformed(env, x, regs, hold);
    hide JumpIf, BoolRight.WaitsNext, BoolRight.LastMay, BoolRight.Good, BoolRight.May, Act;
    if g.AtEnd? {
      SafePerformed(env, x.b, regs, n, g.c, BoolRight.WaitsNext(x.a, h, x.And?));
    }
  }

  /** No comparisons: and, or, not, over variables and literals. */
  predicate Logical(x: Expr) {
    match x
    case Negate(e) => Logical(e)
    case And(a, b) => Logical(a) && Logical(b)
    case Or(a, b) => Logical(a) && Logical(b)
    case Rel(_, _, _) => false
    case _ => true
  }

  /** The run goes the way the value says, even where the value it carries is another one. */
  predicate Steady(r: Leave, v: Value, k: End) {
    match r
    case ByTrue(_) => !IsFalse(v)
    case ByFalse(_) => IsFalse(v)
    case AtEnd(w, _) =>
      && w == v && (k == ETrue || k == EConst ==> !IsFalse(v)) && (k == EFalse ==> IsFalse(v))
  }

  lemma JumpSteady(k: End, r: Leave, v: Value, sense: bool)
    requires Steady(r, v, k)
    ensures var g := JumpIf(k, r, sense);
            if g.AtEnd? then IsFalse(v) == !sense
            else IsFalse(v) == sense && forall k2 :: Steady(g, v, k2)
  {
  }

  lemma {:induction false} LogicalSteady(env: Env, x: Expr, regs: Regs, n: nat, hold: Hold)
    requires Logical(x) && Scoped(x, n)
    ensures Steady(Act(env, x, regs, hold), Eval(env, x, regs), EndOf(x))
    ensures Performed(env, x, regs, hold) == Evaluation(env, x, regs)
    decreases x
  {
    match x
    case Negate(e) => LogicalSteady(env, e, regs, n, hold);
    case And(_, _) => LogicalBoth(env, x, regs, n, hold);
    case Or(_, _) => LogicalBoth(env, x, regs, n, hold);
    case _ =>
  }

  lemma {:induction false} LogicalBoth(env: Env, x: Expr, regs: Regs, n: nat, hold: Hold)
    requires (x.And? || x.Or?) && Logical(x) && Scoped(x, n)
    ensures Steady(Act(env, x, regs, hold), Eval(env, x, regs), EndOf(x))
    ensures Performed(env, x, regs, hold) == Evaluation(env, x, regs)
    decreases x, 0
  {
    LogicalSteady(env, x.a, regs, n, hold);
    var r, v := Act(env, x.a, regs, hold), Eval(env, x.a, regs);
    JumpSteady(EndOf(x.a), r, v, x.And?);
    var g := JumpIf(EndOf(x.a), r, x.And?);
    LogicPerformed(env, x, regs, hold);
    LogicAct(env, x, regs, hold);
    hide JumpIf, Act;
    if g.AtEnd? {
      LogicalSteady(env, x.b, regs, n, g.c);
    }
  }

  /** Literals spoil values only: without comparisons the code evaluates the operands that short-circuit evaluation
      does, whatever literals there are. */
  lemma LiteralsKeepOrder(env: Env, fs: Func, x: Expr, regs: Regs)
    requires FuncOK(fs) && Scoped(x, fs.nactvar) && fs.nactvar <= fs.freereg && Logical(x)
    ensures Evaluates(env, fs, x, regs) == Evaluation(env, x, regs)
  {
    hide Evaluates, FuncOK;
    EvaluatesIs(env, fs, x, regs);
    LogicalSteady(env, x, regs, fs.nactvar, Free);
  }
}
