/** What is generated for an expression, and what its code does: descriptors, registers and exits (lcode.cc). */
module BoolSound {
  import opened BoolVm
  import opened BoolCode
  import opened BoolAct
  import opened BoolRuns

  // ---- the surroundings of an expression

  /** Where a run is when the code of an expression begins: it has left by an outer jump, or it has arrived. */
  datatype Entry = Outside(pos: int, mid: Regs, h: Hold) | Here(mid: Regs)

  /** One run, from `p0` in forward code; `base` is the function when the outermost expression begins, `out` the jumps
      of the surroundings that wait for other places, and registers below `fr` are in use. */
  datatype Ctx = Ctx(env: Env, p0: int, regs: Regs, base: Func, out: seq<int>, en: Entry, fr: int)

  /** The jump at `j` leaves with `h`. */
  predicate Carried(code: seq<Instr>, j: int, regs: Regs, h: Hold) {
    h == if Carries(code, j) then Held(Get(regs, code[j - 1].b)) else Free
  }

  /** Older code stays as it is, apart from the jumps that waited for the expression and their tests. */
  ghost predicate Framed(c: Ctx, code: seq<Instr>) {
    && WellFormed(c.base.code) && |c.base.code| <= |code|
    && forall i :: 0 <= i < |c.base.code| && i !in c.base.jpc && i + 1 !in c.base.jpc ==> code[i] == c.base.code[i]
  }

  predicate Own(c: Ctx, list: seq<int>) {
    forall j :: j in list ==> |c.base.code| <= j || j in c.base.jpc
  }

  /** The unaimed jumps of the run's code are those of `t`, `f` and the surroundings. */
  ghost predicate Exits(c: Ctx, code: seq<Instr>, t: seq<int>, f: seq<int>) {
    && Waiting(code, t) && Waiting(code, f) && Waiting(code, c.out)
    && (forall j :: j in t ==> j !in f && j !in c.out)
    && (forall j :: j in f ==> j !in c.out)
    && (forall j :: c.p0 <= j && Pending(code, j) ==> j in t || j in f || j in c.out)
    && (forall j :: c.p0 < j && Blank(code, j) ==> j in t || j in f || j in c.out)
  }

  ghost predicate Lists(c: Ctx, code: seq<Instr>, t: seq<int>, f: seq<int>) {
    Runs(code, c.p0) && Framed(c, code) && Own(c, t) && Own(c, f) && Exits(c, code, t, f)
  }

  /** Registers below `fr`, except perhaps `skip`, are untouched. */
  ghost predicate Same(fr: int, skip: int, before: Regs, after: Regs) {
    forall r :: 0 <= r < fr && r != skip ==> Get(before, r) == Get(after, r)
  }

  /** The run leaves the code as `res` says; the end is also reached by the jumps of `here`. */
  ghost predicate Reaches(c: Ctx, code: seq<Instr>, here: seq<int>, t: seq<int>, f: seq<int>, skip: int, res: Leave) {
    var (pos, mid) := Exec(c.env, code, c.p0, c.regs);
    match c.en
    case Outside(p, m, h) => pos == p && mid == m && p in c.out && Carried(code, p, m, h)
    case Here(m) =>
      && Same(c.fr, skip, m, mid)
      && match res
         case ByTrue(h) => pos in t && Carried(code, pos, mid, h)
         case ByFalse(h) => pos in f && Carried(code, pos, mid, h)
         case AtEnd(_, _) => pos == |code| || pos in here
  }

  predicate Ended(c: Ctx, res: Leave) { c.en.Here? && res.AtEnd? }

  /** What the jumps that wait for the current position bring along. */
  function HeldIn(c: Ctx, fs: Func): Hold {
    var (pos, mid) := Exec(c.env, fs.code, c.p0, c.regs);
    if pos in fs.jpc && Carries(fs.code, pos) then Held(Get(mid, fs.code[pos - 1].b)) else Free
  }

  predicate RegOK(nactvar: nat, fr: int, freereg: int, k: Kind) {
    && nactvar <= fr
    && match k
       case VNonReloc(r) => (0 <= r < nactvar && freereg == fr) || (r == fr && freereg == fr + 1)
       case VLocal(r) => 0 <= r < nactvar && freereg == fr
       case _ => freereg == fr
  }

  ghost predicate Shape(c: Ctx, fs: Func, e: Exp) {
    && FuncOK(fs) && Own(c, fs.jpc)
    && (e.k.VReloc? || e.k.VJmp? ==> fs.jpc == [])
    && Tail(View(fs), e.k)
    && Lists(c, CoreOf(fs, e.k), e.t, e.f)
  }

  ghost predicate Sound(c: Ctx, fs: Func, e: Exp, res: Leave)
    requires Tail(View(fs), e.k)
  {
    var core := CoreOf(fs, e.k);
    && Reaches(c, core, [], e.t, e.f, -1, res)
    && (Ended(c, res) ==>
         res.c == HeldIn(c, fs) && Yields(c.env, View(fs), e.k, Exec(c.env, core, c.p0, c.regs).1, res.v))
  }

  /** Shape, meaning and register discipline of a descriptor. */
  ghost predicate Means(c: Ctx, fs: Func, e: Exp, res: Leave) {
    Shape(c, fs, e) && Sound(c, fs, e, res) && RegOK(fs.nactvar, c.fr, fs.freereg, e.k)
  }

  /** Code whose end has the value in register `reg`. */
  ghost predicate Placed(c: Ctx, code: seq<Instr>, here: seq<int>, t: seq<int>, f: seq<int>, reg: int, res: Leave) {
    && Reaches(c, code, here, t, f, reg, res)
    && (Ended(c, res) ==> Get(Exec(c.env, code, c.p0, c.regs).1, reg) == res.v)
  }

  ghost predicate InReg(c: Ctx, fs: Func, t: seq<int>, f: seq<int>, reg: int, res: Leave) {
    FuncOK(fs) && Own(c, fs.jpc) && Lists(c, View(fs), t, f) && Placed(c, View(fs), [], t, f, reg, res)
  }

  // ---- emitting

  lemma ListsAppend(c: Ctx, code: seq<Instr>, t: seq<int>, f: seq<int>, ins: Instr)
    requires Lists(c, code, t, f) && Plain(ins)
    ensures Lists(c, code + [ins], t, f)
  {
    AppendRuns(code, ins, c.p0);
    var whole := code + [ins];
    assert forall i :: 0 <= i < |code| ==> whole[i] == code[i];
    forall j | c.p0 <= j && Pending(whole, j) ensures j in t || j in f || j in c.out {
      assert Pending(code, j);
    }
    forall j | c.p0 < j && Blank(whole, j) ensures j in t || j in f || j in c.out {
      assert Blank(code, j);
    }
  }

  lemma AppendPlaced(c: Ctx, code: seq<Instr>, t: seq<int>, f: seq<int>, ins: Instr, res: Leave)
    requires Lists(c, code, t, f) && Plain(ins) && Reaches(c, code, [], t, f, -1, res)
    requires Ended(c, res) ==> Loads(c.env, ins, Exec(c.env, code, c.p0, c.regs).1) == res.v
    ensures Lists(c, code + [ins], t, f)
    ensures Placed(c, code + [ins], [], t, f, ins.a, res)
  {
    ListsAppend(c, code, t, f, ins);
    ExecAppend(c.env, code, c.p0, ins, c.regs);
    var (pos, mid) := Exec(c.env, code, c.p0, c.regs);
    assert pos in t || pos in f || pos in c.out ==> Pending(code, pos);
  }

  lemma EmitReloc(c: Ctx, fs: Func, e: Exp, ins: Instr)
    requires Shape(c, fs, e) && CoreEnd(View(fs), e.k) == |View(fs)|
    requires ins.GetGlobal? || ins.Not?
    ensures var fs1 := Emit(fs, ins);
            var e1 := e.(k := VReloc(|fs.code|));
            Shape(c, fs1, e1) && CoreOf(fs1, e1.k) == CoreOf(fs, e.k) == View(fs) && View(fs1)[|fs.code|] == ins
  {
    EmitView(fs, ins);
    assert CoreOf(fs, e.k) == View(fs);
    assert (View(fs) + [ins])[..|fs.code|] == View(fs);
  }

  /** A variable that has to be loaded is loaded behind everything that waits. */
  function Settled(k: Kind, res: Leave): Leave { if res.AtEnd? && k.VGlobal? then res.(c := Free) else res }

  lemma DischargeVarsSound(c: Ctx, fs: Func, e: Exp, res: Leave)
    requires Shape(c, fs, e) && Sound(c, fs, e, res)
    ensures var (fs1, e1) := DischargeVars(fs, e);
            && Shape(c, fs1, e1) && Sound(c, fs1, e1, Settled(e.k, res))
            && !e1.k.VLocal? && !e1.k.VGlobal? && e1.t == e.t && e1.f == e.f
            && fs1.nactvar == fs.nactvar && fs1.freereg == fs.freereg
  {
    if e.k.VGlobal? {
      EmitReloc(c, fs, e, GetGlobal(0, e.k.g));
    }
  }

  lemma DischargeVarsMeans(c: Ctx, fs: Func, e: Exp, res: Leave)
    requires Means(c, fs, e, res)
    ensures var (fs1, e1) := DischargeVars(fs, e);
            && Means(c, fs1, e1, Settled(e.k, res))
            && !e1.k.VLocal? && !e1.k.VGlobal? && e1.t == e.t && e1.f == e.f
            && fs1.nactvar == fs.nactvar && fs1.freereg == fs.freereg
  {
    hide Shape, Sound;
    DischargeVarsSound(c, fs, e, res);
  }

  /** The value is known without looking at the code: one load puts it in its register. */
  lemma EmitPlaced(c: Ctx, fs: Func, e: Exp, load: Instr, res: Leave)
    requires Shape(c, fs, e) && Sound(c, fs, e, res)
    requires CoreEnd(View(fs), e.k) == |View(fs)| && Plain(load)
    requires forall mid :: Ended(c, res) && Yields(c.env, View(fs), e.k, mid, res.v) ==>
               Loads(c.env, load, mid) == res.v
    ensures InReg(c, Emit(fs, load), e.t, e.f, load.a, res) && Emit(fs, load).jpc == []
  {
    assert CoreOf(fs, e.k) == View(fs);
    EmitView(fs, load);
    var mid := Exec(c.env, View(fs), c.p0, c.regs).1;
    assert Ended(c, res) ==> Yields(c.env, View(fs), e.k, mid, res.v);
    AppendPlaced(c, View(fs), e.t, e.f, load, res);
  }

  /** The value is made by the last instruction, which now gets its register. */
  lemma RelocPlaced(c: Ctx, fs: Func, e: Exp, reg: int, res: Leave)
    requires Shape(c, fs, e) && Sound(c, fs, e, res) && e.k.VReloc?
    ensures 0 <= e.k.pc < |fs.code|
    ensures var fs1 := fs.(code := fs.code[e.k.pc := SetA(fs.code[e.k.pc], reg)]);
            InReg(c, fs1, e.t, e.f, reg, res)
  {
    ViewOK(fs);
    var pc := e.k.pc;
    var core := CoreOf(fs, e.k);
    var load := SetA(fs.code[pc], reg);
    var fs1 := fs.(code := fs.code[pc := load]);
    assert fs1.code == core + [load];
    AppendWellFormed(core, load);
    ViewOK(fs1);
    AppendPlaced(c, core, e.t, e.f, load, res);
  }

  predicate StaysIn(k: Kind, reg: int) { k == VLocal(reg) || k == VNonReloc(reg) }

  lemma Discharge2RegPlaced(c: Ctx, fs: Func, e: Exp, reg: int, res: Leave)
    requires Shape(c, fs, e) && Sound(c, fs, e, res) && !e.k.VJmp?
    ensures var (fs1, e1) := Discharge2Reg(fs, e, reg);
            && InReg(c, fs1, e.t, e.f, reg, Settled(e.k, res))
            && e1 == e.(k := VNonReloc(reg))
            && fs1.nactvar == fs.nactvar && fs1.freereg == fs.freereg
            && (!StaysIn(e.k, reg) ==> fs1.jpc == [])
  {
    hide Lists, Reaches;
    DischargeVarsSound(c, fs, e, res);
    var (fs1, e1) := DischargeVars(fs, e);
    var res1 := Settled(e.k, res);
    match e1.k
    case VReloc(pc) => RelocPlaced(c, fs1, e1, reg, res1);
    case VNonReloc(r) =>
      if r != reg {
        EmitPlaced(c, fs1, e1, Move(reg, r), res1);
      } else {
        StayPlaced(c, fs1, e1, res1);
      }
    case VFalse => EmitPlaced(c, fs1, e1, LoadBool(reg, false, false), res1);
    case VTrue => EmitPlaced(c, fs1, e1, LoadBool(reg, true, false), res1);
    case VK(v) => EmitPlaced(c, fs1, e1, LoadK(reg, v), res1);
  }

  lemma StayPlaced(c: Ctx, fs: Func, e: Exp, res: Leave)
    requires Shape(c, fs, e) && Sound(c, fs, e, res) && e.k.VNonReloc?
    ensures InReg(c, fs, e.t, e.f, e.k.r, res)
  {
    assert CoreOf(fs, e.k) == View(fs);
  }

  // ---- tests and their jumps

  function Away(sense: bool, h: Hold): Leave { if sense then ByTrue(h) else ByFalse(h) }

  /** A test at the end of code that leaves as `res` says: its jump joins the list of `sense`. */
  ghost predicate TestLeaves(c: Ctx, code: seq<Instr>, test: Instr, sense: bool, res: Leave, after: Leave) {
    var (pos, mid) := Exec(c.env, code, c.p0, c.regs);
    c.en.Here? ==>
      if !res.AtEnd? then after == res
      else if Step(c.env, test, pos, mid).0 == pos + 1
      then after == Away(sense, if test.TestSet? then Held(Get(mid, test.b)) else Free)
      else after.AtEnd?
  }

  lemma AppendTestExits(c: Ctx, code: seq<Instr>, t: seq<int>, f: seq<int>, test: Instr, sense: bool)
    requires Exits(c, code, t, f) && Unset(test)
    ensures var whole := code + [test, Jmp(PENDING)];
            && Exits(c, whole, if sense then t + [|code| + 1] else t, if sense then f else f + [|code| + 1])
            && forall j :: j in t || j in f || j in c.out ==> j < |code| && Carries(whole, j) == Carries(code, j)
  {
    var whole := code + [test, Jmp(PENDING)];
    var t1 := if sense then t + [|code| + 1] else t;
    var f1 := if sense then f else f + [|code| + 1];
    assert forall j :: 0 <= j < |code| ==> whole[j] == code[j];
    forall j | j in t || j in f || j in c.out
      ensures j < |code| && Pending(whole, j) && Carries(whole, j) == Carries(code, j)
    {
      assert Pending(code, j);
    }
    assert forall j :: j in t1 || j in f1 ==> j in t || j in f || j == |code| + 1;
    assert |code| + 1 in (if sense then t1 else f1);
    forall j | c.p0 <= j && Pending(whole, j) ensures j in t1 || j in f1 || j in c.out {
      assert j < |code| ==> Pending(code, j);
    }
    forall j | c.p0 < j && Blank(whole, j) ensures j in t1 || j in f1 || j in c.out {
      assert j <= |code| ==> Blank(code, j);
    }
  }

  lemma AppendTestLists(c: Ctx, code: seq<Instr>, t: seq<int>, f: seq<int>, test: Instr, sense: bool)
    requires Lists(c, code, t, f) && Unset(test)
    ensures var whole := code + [test, Jmp(PENDING)];
            && Lists(c, whole, if sense then t + [|code| + 1] else t, if sense then f else f + [|code| + 1])
            && forall j :: j in t || j in f || j in c.out ==> j < |code| && Carries(whole, j) == Carries(code, j)
  {
    hide Exits, Runs;
    AppendTestExits(c, code, t, f, test, sense);
    AppendTestRuns(code, test, c.p0);
  }

  /** A pending jump behind its test, added to the list of one sense. */
  lemma AppendTest(c: Ctx, code: seq<Instr>, t: seq<int>, f: seq<int>, test: Instr, sense: bool, res: Leave,
          after: Leave)
    requires Lists(c, code, t, f) && Unset(test) && Reaches(c, code, [], t, f, -1, res)
    requires TestLeaves(c, code, test, sense, res, after)
    ensures var whole := code + [test, Jmp(PENDING)];
            var t1 := if sense then t + [|code| + 1] else t;
            var f1 := if sense then f else f + [|code| + 1];
            Lists(c, whole, t1, f1) && Reaches(c, whole, [], t1, f1, -1, after)
  {
    hide Framed, Own, Exits, Same;
    var whole := code + [test, Jmp(PENDING)];
    var t1 := if sense then t + [|code| + 1] else t;
    var f1 := if sense then f else f + [|code| + 1];
    AppendTestLists(c, code, t, f, test, sense);
    ExecTest(c.env, code, c.p0, test, c.regs);
    var (pos, mid) := Exec(c.env, code, c.p0, c.regs);
    assert whole[|code|] == test;
    assert |code| + 1 in (if sense then t1 else f1);
    assert pos < |code| && pos > 0 ==> whole[pos - 1] == code[pos - 1];
  }

  // ---- exits patched to a register

  /** The unresolved code as patching needs it: the jumps for the current position are one more list. */
  ghost predicate Raw(c: Ctx, fs: Func, t: seq<int>, f: seq<int>) {
    && FuncOK(fs) && Runs(fs.code, c.p0) && Framed(c, fs.code) && Own(c, fs.jpc) && Own(c, t) && Own(c, f)
    && Waiting(fs.code, t) && Waiting(fs.code, f) && Waiting(fs.code, c.out)
    && (forall j :: j in t ==> j !in f && j !in fs.jpc && j !in c.out)
    && (forall j :: j in f ==> j !in fs.jpc && j !in c.out)
    && (forall j :: j in fs.jpc ==> j !in c.out)
    && (forall j :: c.p0 <= j && Pending(fs.code, j) ==> j in fs.jpc || j in t || j in f || j in c.out)
    && (forall j :: c.p0 < j && Blank(fs.code, j) ==> j in fs.jpc || j in t || j in f || j in c.out)
  }

  lemma RawFramed(c: Ctx, fs: Func)
    requires FuncOK(fs) && Own(c, fs.jpc) && Framed(c, View(fs))
    ensures Framed(c, fs.code)
  {
    var n := |c.base.code|;
    forall i | 0 <= i < n && i !in c.base.jpc && i + 1 !in c.base.jpc ensures fs.code[i] == c.base.code[i] {
      assert View(fs)[i] == c.base.code[i];
      assert View(fs)[i] == PatchedAt(fs.code, fs.jpc, |fs.code|, NO_REG, |fs.code|, i);
      assert WellPlaced(c.base.code, i);
      if i + 1 in fs.jpc && fs.code[i].TestSet? {
        assert IsTest(c.base.code[i]) && i + 1 == n;
      }
    }
  }

  lemma RawShape(c: Ctx, fs: Func, t: seq<int>, f: seq<int>)
    requires FuncOK(fs) && Own(c, fs.jpc) && Lists(c, View(fs), t, f)
    ensures Raw(c, fs, t, f)
  {
    hide Runs, Framed, Own;
    var view := View(fs);
    RawLists(fs, t);
    RawLists(fs, f);
    RawLists(fs, c.out);
    RawFramed(c, fs);
    ViewRuns(fs, c.p0);
    forall i | 0 <= i < |fs.code|
      ensures view[i] == PatchedAt(fs.code, fs.jpc, |fs.code|, NO_REG, |fs.code|, i)
    {
    }
    forall j | c.p0 <= j && Pending(fs.code, j) ensures j in fs.jpc || j in t || j in f || j in c.out {
      assert j !in fs.jpc ==> Pending(view, j);
    }
    forall j | c.p0 < j && Blank(fs.code, j) ensures j in fs.jpc || j in t || j in f || j in c.out {
      if j !in fs.jpc {
        assert view[j - 1] == fs.code[j - 1];
        assert Blank(view, j);
      }
    }
  }

  /** The exits of resolved code, seen in the raw code. */
  predicate Unseen(fs: Func, list: seq<int>) {
    && Waiting(View(fs), list)
    && (forall j :: j in list ==> j !in fs.jpc && Carries(fs.code, j) == Carries(View(fs), j))
    && (forall j :: j in list && Carries(fs.code, j) ==> View(fs)[j - 1] == fs.code[j - 1])
  }

  lemma RawUnseen(c: Ctx, fs: Func, t: seq<int>, f: seq<int>)
    requires FuncOK(fs) && Exits(c, View(fs), t, f)
    ensures Unseen(fs, t) && Unseen(fs, f) && Unseen(fs, c.out)
  {
    RawLists(fs, t);
    RawLists(fs, f);
    RawLists(fs, c.out);
  }

  /** A run of the raw code stops at the jumps that wait for the current position. */
  lemma RawReaches(c: Ctx, fs: Func, t: seq<int>, f: seq<int>, skip: int, res: Leave)
    requires FuncOK(fs) && Own(c, fs.jpc) && Lists(c, View(fs), t, f) && Reaches(c, View(fs), [], t, f, skip, res)
    ensures Reaches(c, fs.code, fs.jpc, t, f, skip, res)
    ensures Exec(c.env, fs.code, c.p0, c.regs).1 == Exec(c.env, View(fs), c.p0, c.regs).1
    ensures c.en.Outside? ==>
              Exec(c.env, fs.code, c.p0, c.regs).0 == c.en.pos && c.en.pos !in fs.jpc && c.en.pos < |fs.code|
  {
    hide Framed, Own, Exits, Same, FuncOK, Runs;
    RawUnseen(c, fs, t, f);
    ViewRuns(fs, c.p0);
    ExecView(c.env, fs, c.p0, c.regs);
    var (pos, mid) := Exec(c.env, fs.code, c.p0, c.regs);
    var (end, last) := Exec(c.env, View(fs), c.p0, c.regs);
    assert end in t || end in f || end in c.out ==> Pending(View(fs), end);
  }

  /** Where a run of the raw code ends once its exits and the current-position jumps are resolved. */
  lemma PatchExitsRun(env: Env, fs: Func, e: Exp, reg: int, pF: int, pT: int, out: seq<int>, p0: int, regs: Regs)
    requires FuncOK(fs) && Runs(fs.code, p0) && Waiting(fs.code, out) && reg != NO_REG
    requires ExitsOK(fs.code, e.f, reg, false, pF) && ExitsOK(fs.code, e.t, reg, true, pT)
    requires forall j :: j in e.t ==> j !in e.f && j !in fs.jpc && j !in out
    requires forall j :: j in e.f ==> j !in fs.jpc && j !in out
    requires forall j :: j in fs.jpc ==> j !in out
    ensures var done := PatchExits(fs, e, reg, pF, pT);
            var (pos, mid) := Exec(env, fs.code, p0, regs);
            && FuncOK(done) && Runs(done.code, p0) && Waiting(View(done), out)
            && Exec(env, View(done), p0, regs) == (
                 if pos in e.f then (|fs.code|, Stored(fs.code, pos, reg, false, mid))
                 else if pos in e.t then (|fs.code|, Stored(fs.code, pos, reg, true, mid))
                 else if pos in fs.jpc then (|fs.code|, mid) else (pos, mid))
            && (forall j :: j in fs.jpc ==> Carries(done.code, j) == Carries(fs.code, j))
            && (forall j :: j in out ==> Carries(View(done), j) == Carries(fs.code, j))
            && (forall j :: j in out && Carries(fs.code, j) ==> View(done)[j - 1] == fs.code[j - 1])
  {
    hide Runs, Stored;
    var done := PatchExits(fs, e, reg, pF, pT);
    var n := |fs.code|;
    var c1 := Patch(fs.code, e.f, n, reg, pF);
    PatchExitList(env, fs.code, e.f, reg, false, pF, p0, regs);
    PatchKeeps(fs.code, e.f, reg, pF, e.t);
    PatchKeeps(fs.code, e.f, reg, pF, fs.jpc);
    PatchKeeps(fs.code, e.f, reg, pF, out);
    LabelKept(fs.code, c1, e.t, reg, pT);
    PatchExitList(env, c1, e.t, reg, true, pT, p0, regs);
    PatchKeeps(c1, e.t, reg, pT, fs.jpc);
    PatchKeeps(c1, e.t, reg, pT, out);
    ExecView(env, done, p0, regs);
    ViewKeeps(done, out);
    StopsBefore(env, fs.code, p0, regs);
    StoredKept(fs.code, c1, e.t, reg, Exec(env, fs.code, p0, regs).0, Exec(env, fs.code, p0, regs).1);
  }

  lemma StopsBefore(env: Env, code: seq<Instr>, p0: int, regs: Regs)
    requires Runs(code, p0)
    ensures p0 <= Exec(env, code, p0, regs).0 <= |code|
  {
    ExecStops(env, code, p0, regs);
  }

  lemma LabelKept(code: seq<Instr>, after: seq<Instr>, list: seq<int>, reg: int, lab: int)
    requires ExitsOK(code, list, reg, true, lab) && |after| == |code| && Waiting(after, list)
    requires forall j :: j in list ==> Carries(after, j) == Carries(code, j)
    requires forall i :: 0 <= i < |code| && code[i].LoadBool? ==> after[i] == code[i]
    requires forall i :: 0 <= i <= |code| && Landing(code, i) ==> Landing(after, i)
    ensures ExitsOK(after, list, reg, true, lab)
  {
  }

  lemma StoredKept(code: seq<Instr>, after: seq<Instr>, list: seq<int>, reg: int, j: int, mid: Regs)
    requires forall j :: j in list ==> Carries(after, j) == Carries(code, j)
    requires forall j :: j in list && Carries(code, j) ==> j <= |after| && after[j - 1] == code[j - 1]
    ensures j in list ==> Stored(after, j, reg, true, mid) == Stored(code, j, reg, true, mid)
  {
  }

  /** The exits of `e` patched: a run that left by them now ends with its value in the register. */
  lemma PatchExitsReach(c: Ctx, fs: Func, e: Exp, reg: int, pF: int, pT: int, res: Leave)
    requires Raw(c, fs, e.t, e.f) && reg != NO_REG
    requires ExitsOK(fs.code, e.f, reg, false, pF) && ExitsOK(fs.code, e.t, reg, true, pT)
    requires Placed(c, fs.code, fs.jpc, e.t, e.f, reg, res)
    ensures var done := PatchExits(fs, e, reg, pF, pT);
            && FuncOK(done) && Runs(done.code, c.p0) && Waiting(View(done), c.out)
            && Placed(c, View(done), [], [], [], reg, AtEnd(Final(res), Free))
            && (forall j :: j in fs.jpc ==> Carries(done.code, j) == Carries(fs.code, j))
  {
    hide Framed, Own, Same, Runs, FuncOK, ExitsOK, Stored, PatchExits, View, Exec;
    var done := PatchExits(fs, e, reg, pF, pT);
    PatchExitsLength(fs, e, reg, pF, pT);
    PatchExitsRun(c.env, fs, e, reg, pF, pT, c.out, c.p0, c.regs);
    var (pos, mid) := Exec(c.env, fs.code, c.p0, c.regs);
    var last := Exec(c.env, View(done), c.p0, c.regs).1;
    if c.en.Here? {
      StoredSame(fs.code, pos, reg, true, mid);
      StoredSame(fs.code, pos, reg, false, mid);
      SameThen(c.fr, reg, c.en.mid, mid, last);
    }
  }

  lemma PatchExitsLength(fs: Func, e: Exp, reg: int, pF: int, pT: int)
    ensures |View(PatchExits(fs, e, reg, pF, pT))| == |fs.code|
  {
    hide Patch;
  }

  lemma StoredSame(code: seq<Instr>, j: int, reg: int, sense: bool, mid: Regs)
    requires reg != NO_REG
    ensures var last := Stored(code, j, reg, sense, mid);
            && (forall r :: r != reg ==> Get(last, r) == Get(mid, r))
            && Get(last, reg) == if Carries(code, j) then Get(mid, code[j - 1].b) else Bool(sense)
  {
  }

  lemma SameThen(fr: int, reg: int, a: Regs, b: Regs, d: Regs)
    ensures Same(fr, reg, a, b) && (forall r :: r != reg ==> Get(d, r) == Get(b, r)) ==> Same(fr, reg, a, d)
  {
  }

  /** Jumps that wait elsewhere look the same once current-position jumps are resolved. */
  lemma ViewKeeps(fs: Func, list: seq<int>)
    requires FuncOK(fs) && Waiting(fs.code, list) && forall j :: j in list ==> j !in fs.jpc
    ensures Waiting(View(fs), list)
    ensures forall j :: j in list ==> Carries(View(fs), j) == Carries(fs.code, j)
    ensures forall j :: j in list && Carries(fs.code, j) ==> View(fs)[j - 1] == fs.code[j - 1]
  {
    PatchKeeps(fs.code, fs.jpc, NO_REG, |fs.code|, list);
  }

  lemma PatchedFramed(c: Ctx, code: seq<Instr>, list: seq<int>, vtarget: int, reg: int, dtarget: int)
    requires Framed(c, code) && Own(c, list)
    ensures Framed(c, Patch(code, list, vtarget, reg, dtarget))
  {
    var patched := Patch(code, list, vtarget, reg, dtarget);
    var n := |c.base.code|;
    forall i | 0 <= i < n && i !in c.base.jpc && i + 1 !in c.base.jpc ensures patched[i] == c.base.code[i] {
      assert patched[i] == PatchedAt(code, list, vtarget, reg, dtarget, i);
      assert WellPlaced(c.base.code, i) && code[i] == c.base.code[i];
    }
  }

  /** Nothing of the run's code is left unaimed but the jumps of the surroundings. */
  lemma PatchExitsExits(c: Ctx, fs: Func, e: Exp, reg: int, pF: int, pT: int)
    requires Raw(c, fs, e.t, e.f) && reg != NO_REG
    requires forall j :: j in e.f ==> j < Target(fs.code, |fs.code|, pF, j)
    requires forall j :: j in e.t ==> j < Target(fs.code, |fs.code|, pT, j)
    requires FuncOK(PatchExits(fs, e, reg, pF, pT)) && Waiting(View(PatchExits(fs, e, reg, pF, pT)), c.out)
    ensures Exits(c, View(PatchExits(fs, e, reg, pF, pT)), [], [])
  {
    hide Framed, Own, Runs;
    var n := |fs.code|;
    var done := PatchExits(fs, e, reg, pF, pT);
    var c1 := Patch(fs.code, e.f, n, reg, pF);
    var view := View(done);
    forall i | 0 <= i < n
      ensures view[i] == PatchedAt(done.code, fs.jpc, n, NO_REG, n, i)
      ensures done.code[i] == PatchedAt(c1, e.t, n, reg, pT, i)
      ensures c1[i] == PatchedAt(fs.code, e.f, n, reg, pF, i)
    {
    }
    forall j | c.p0 <= j && Pending(view, j) ensures j in c.out {
      assert j in e.t ==> Carries(c1, j) == Carries(fs.code, j);
      assert j !in e.t && j !in e.f && j !in fs.jpc;
      assert Pending(fs.code, j);
    }
    forall j | c.p0 < j && Blank(view, j) ensures j in c.out {
      assert Blank(fs.code, j);
      assert j !in e.t && j !in e.f && j !in fs.jpc;
    }
  }

  lemma LabelsAim(code: seq<Instr>, list: seq<int>, reg: int, sense: bool, lab: int)
    requires ExitsOK(code, list, reg, sense, lab)
    ensures forall j :: j in list ==> j < Target(code, |code|, lab, j)
  {
  }

  /** No jump that waits for the current position carries a value. */
  predicate NoneCarried(fs: Func) { forall j :: j in fs.jpc ==> !Carries(fs.code, j) }

  /** The exit lists of `e` patched, with or without boolean loads at the end. */
  lemma FinishExits(c: Ctx, fs: Func, e: Exp, reg: int, pF: int, pT: int, res: Leave)
    requires Raw(c, fs, e.t, e.f) && reg != NO_REG
    requires ExitsOK(fs.code, e.f, reg, false, pF) && ExitsOK(fs.code, e.t, reg, true, pT)
    requires Placed(c, fs.code, fs.jpc, e.t, e.f, reg, res)
    ensures InReg(c, PatchExits(fs, e, reg, pF, pT), [], [], reg, AtEnd(Final(res), Free))
    ensures NoneCarried(fs) ==> NoneCarried(PatchExits(fs, e, reg, pF, pT))
  {
    hide Exits, Runs, Placed, ExitsOK, FuncOK;
    var done := PatchExits(fs, e, reg, pF, pT);
    LabelsAim(fs.code, e.f, reg, false, pF);
    LabelsAim(fs.code, e.t, reg, true, pT);
    PatchExitsReach(c, fs, e, reg, pF, pT, res);
    PatchExitsExits(c, fs, e, reg, pF, pT);
    ViewRuns(done, c.p0);
    PatchedFramed(c, fs.code, e.f, |fs.code|, reg, pF);
    PatchedFramed(c, Patch(fs.code, e.f, |fs.code|, reg, pF), e.t, |fs.code|, reg, pT);
    PatchedFramed(c, done.code, done.jpc, |fs.code|, NO_REG, |fs.code|);
  }

  // ---- the boolean loads

  /** Boolean loads added to raw code change nothing that is waiting. */
  lemma AppendLoadsRaw(c: Ctx, fs: Func, t: seq<int>, f: seq<int>, loads: seq<Instr>)
    requires Raw(c, fs, t, f)
    requires forall i :: 0 <= i < |loads| ==> loads[i].LoadBool?
    requires Runs(fs.code + loads, c.p0)
    ensures Raw(c, fs.(code := fs.code + loads), t, f)
    ensures forall j :: j in t || j in f || j in fs.jpc || j in c.out ==>
              j < |fs.code| && Carries(fs.code + loads, j) == Carries(fs.code, j)
  {
    var code := fs.code;
    var whole := code + loads;
    assert WellFormed(whole);
    hide Runs;
    assert forall j :: 0 <= j < |code| ==> whole[j] == code[j];
    forall j | j in t || j in f || j in fs.jpc || j in c.out
      ensures j < |code| && Pending(whole, j) && Carries(whole, j) == Carries(code, j)
    {
      assert Pending(code, j);
    }
    forall j | c.p0 <= j && Pending(whole, j) ensures j in fs.jpc || j in t || j in f || j in c.out {
      assert Pending(code, j);
    }
    forall j | c.p0 < j && Blank(whole, j) ensures j in fs.jpc || j in t || j in f || j in c.out {
      assert Blank(code, j);
    }
  }

  /** A jump added to raw code, holding the jumps that waited for its position. */
  lemma AppendJumpRaw(c: Ctx, fs: Func, t: seq<int>, f: seq<int>)
    requires Raw(c, fs, t, f)
    ensures var fs1 := fs.(code := fs.code + [Jmp(PENDING)], jpc := [|fs.code|] + fs.jpc);
            && Raw(c, fs1, t, f) && !Carries(fs1.code, |fs.code|)
            && forall j :: j in t || j in f || j in fs.jpc || j in c.out ==>
                 j < |fs.code| && Carries(fs1.code, j) == Carries(fs.code, j)
  {
    var code := fs.code;
    AppendJumpRuns(code, c.p0);
    hide Runs;
    var whole := code + [Jmp(PENDING)];
    var here := [|code|] + fs.jpc;
    assert forall j :: 0 <= j < |code| ==> whole[j] == code[j];
    assert forall j :: j in here <==> j == |code| || j in fs.jpc;
    forall j | j in t || j in f || j in fs.jpc || j in c.out
      ensures j < |code| && Pending(whole, j) && Carries(whole, j) == Carries(code, j)
    {
      assert Pending(code, j);
    }
    forall j | c.p0 <= j && Pending(whole, j) ensures j in here || j in t || j in f || j in c.out {
      assert j < |code| ==> Pending(code, j);
    }
    forall j | c.p0 < j && Blank(whole, j) ensures j in here || j in t || j in f || j in c.out {
      assert j <= |code| && Blank(code, j);
    }
    assert WellFormed(whole);
  }

  lemma LabelRuns(code: seq<Instr>, reg: int, p0: int)
    requires Runs(code, p0)
    ensures var loads := [LoadBool(reg, false, true), LoadBool(reg, true, false)];
            && Runs(code + loads, p0) && Landing(code + loads, |code|) && Landing(code + loads, |code| + 1)
  {
    var loads := [LoadBool(reg, false, true), LoadBool(reg, true, false)];
    if code != [] {
      assert WellPlaced(code, |code| - 1);
    }
    forall i | 0 <= i < |code| + 2 ensures WellPlaced(code + loads, i) {
      assert i < |code| ==> WellPlaced(code, i);
    }
    forall i | p0 <= i < |code| + 2 ensures Onward(code + loads, i) {
      assert i < |code| ==> Onward(code, i);
    }
  }

  /** The two boolean loads behind raw code, ready for patching. */
  ghost predicate Labelled(c: Ctx, fs: Func, fs2: Func, pF: int, pT: int, t: seq<int>, f: seq<int>, reg: int) {
    Raw(c, fs2, t, f) && ExitsOK(fs2.code, f, reg, false, pF) && ExitsOK(fs2.code, t, reg, true, pT)
  }

  lemma LoadsLabelled(c: Ctx, fs: Func, t: seq<int>, f: seq<int>, reg: int)
    requires Raw(c, fs, t, f)
    ensures var loads := [LoadBool(reg, false, true), LoadBool(reg, true, false)];
            && Labelled(c, fs, fs.(code := fs.code + loads), |fs.code|, |fs.code| + 1, t, f, reg)
            && forall j :: j in t || j in f || j in fs.jpc || j in c.out ==>
                 j < |fs.code| && Carries(fs.code + loads, j) == Carries(fs.code, j)
  {
    LabelRuns(fs.code, reg, c.p0);
    hide Runs, Own, Framed;
    AppendLoadsRaw(c, fs, t, f, [LoadBool(reg, false, true), LoadBool(reg, true, false)]);
  }

  /** A run of raw code that does not end at its last instruction stops where it did when code is added. */
  lemma LongerReaches(c: Ctx, code: seq<Instr>, whole: seq<Instr>, here: seq<int>, here1: seq<int>, t: seq<int>,
          f: seq<int>,
                      reg: int, res: Leave)
    requires Runs(code, c.p0) && |code| <= |whole| && whole[..|code|] == code
    requires Placed(c, code, here, t, f, reg, res)
    requires forall j :: j in t || j in f || j in here || j in c.out ==>
               j < |code| && Carries(whole, j) == Carries(code, j)
    requires forall j :: j in here ==> j in here1
    requires var (pos, mid) := Exec(c.env, code, c.p0, c.regs);
             pos == |code| ==> Exec(c.env, whole, |code|, mid) == (|code|, mid) && |code| in here1
    ensures Placed(c, whole, here1, t, f, reg, res)
  {
    hide Same, Runs;
    RunsPrefix(c.env, code, whole, c.p0, c.regs);
    var (pos, mid) := Exec(c.env, code, c.p0, c.regs);
    assert forall j :: 0 <= j < |code| ==> whole[j] == code[j];
  }

  lemma RunsPrefix(env: Env, code: seq<Instr>, whole: seq<Instr>, p0: int, regs: Regs)
    requires Runs(code, p0) && |code| <= |whole| && whole[..|code|] == code
    ensures var (pos, mid) := Exec(env, code, p0, regs);
            Exec(env, whole, p0, regs) == if pos == |code| then Exec(env, whole, |code|, mid) else (pos, mid)
  {
    ExecPrefix(env, code, whole, p0, regs);
  }

  // ---- exits resolved

  lemma SomeExit(c: Ctx, code: seq<Instr>, t: seq<int>, f: seq<int>)
    requires Exits(c, code, t, f)
    ensures t == f ==> t == [] == f
  {
    if t != [] {
      var j := t[0];
      assert j in t && Pending(code, j);
      assert t == f ==> j in f;
    }
  }

  /** A value that sits in `reg` at the end of the code, and exits that need boolean loads: a jump leads over them. */
  lemma ValueToReg(c: Ctx, fs: Func, e: Exp, reg: int, res: Leave)
    requires Raw(c, fs, e.t, e.f) && Placed(c, fs.code, fs.jpc, e.t, e.f, reg, res) && reg != NO_REG
    ensures var (fs2, pF, pT) := LoadLabels(fs, reg, false);
            && InReg(c, PatchExits(fs2, e, reg, pF, pT), [], [], reg, AtEnd(Final(res), Free))
            && (NoneCarried(fs) ==> NoneCarried(PatchExits(fs2, e, reg, pF, pT)))
  {
    hide InReg, PatchExits, ExitsOK, Own, Framed, Placed, Waiting;
    LoadLabelsIs(fs, reg, false);
    AppendJumpRaw(c, fs, e.t, e.f);
    var fs1 := fs.(code := fs.code + [Jmp(PENDING)], jpc := [|fs.code|] + fs.jpc);
    JumpPlaced(c, fs, e.t, e.f, reg, res);
    LoadsLabelled(c, fs1, e.t, e.f, reg);
    var fs2 := LoadLabels(fs, reg, false).0;
    JumpStops(c, fs.code);
    LongerReaches(c, fs1.code, fs2.code, fs1.jpc, fs2.jpc, e.t, e.f, reg, res);
    FinishExits(c, fs2, e, reg, |fs.code| + 1, |fs.code| + 2, res);
    assert NoneCarried(fs) ==> NoneCarried(fs2);
  }

  lemma JumpPlaced(c: Ctx, fs: Func, t: seq<int>, f: seq<int>, reg: int, res: Leave)
    requires Raw(c, fs, t, f) && Placed(c, fs.code, fs.jpc, t, f, reg, res)
    ensures var fs1 := fs.(code := fs.code + [Jmp(PENDING)], jpc := [|fs.code|] + fs.jpc);
            Placed(c, fs1.code, fs1.jpc, t, f, reg, res)
  {
    var fs1 := fs.(code := fs.code + [Jmp(PENDING)], jpc := [|fs.code|] + fs.jpc);
    AppendJumpRaw(c, fs, t, f);
    hide Placed, Own, Framed, Runs;
    assert forall j :: j in fs.jpc ==> j in fs1.jpc;
    LongerReaches(c, fs.code, fs1.code, fs.jpc, fs1.jpc, t, f, reg, res);
  }

  /** Code that ends in an unaimed jump never runs off its end. */
  lemma JumpStops(c: Ctx, code: seq<Instr>)
    requires Runs(code, c.p0)
    ensures Exec(c.env, code + [Jmp(PENDING)], c.p0, c.regs).0 <= |code|
  {
    var whole := code + [Jmp(PENDING)];
    RunsPrefix(c.env, code, whole, c.p0, c.regs);
    ExecStops(c.env, code, c.p0, c.regs);
  }

  /** When every exit carries its value no load is needed. */
  lemma CarriedToReg(c: Ctx, fs: Func, e: Exp, reg: int, res: Leave)
    requires Raw(c, fs, e.t, e.f) && Placed(c, fs.code, fs.jpc, e.t, e.f, reg, res) && reg != NO_REG
    requires !NeedValue(fs.code, e.t) && !NeedValue(fs.code, e.f)
    ensures InReg(c, PatchExits(fs, e, reg, PENDING, PENDING), [], [], reg, AtEnd(Final(res), Free))
    ensures NoneCarried(fs) ==> NoneCarried(PatchExits(fs, e, reg, PENDING, PENDING))
  {
    hide InReg, PatchExits, Own, Framed, Placed;
    FinishExits(c, fs, e, reg, PENDING, PENDING, res);
  }

  /** What a pending comparison says: its jump is taken exactly when the value is true. */
  lemma VJmpCore(c: Ctx, fs: Func, e: Exp, res: Leave)
    requires Shape(c, fs, e) && Sound(c, fs, e, res) && e.k.VJmp?
    ensures var core := CoreOf(fs, e.k);
            && fs.jpc == [] && 1 <= e.k.pc == |core| + 1 < |fs.code| && fs.code[e.k.pc - 1].Compare?
            && fs.code == core + [fs.code[e.k.pc - 1], Jmp(PENDING)] == View(fs)
            && Lists(c, core, e.t, e.f)
            && Reaches(c, core, [], e.t, e.f, -1, res)
            && var (pos, mid) := Exec(c.env, core, c.p0, c.regs);
               Ended(c, res) ==> pos == |core| && res.c == Free
                                 && res.v == Bool(Step(c.env, fs.code[e.k.pc - 1], pos, mid).0 == pos + 1)
  {
    ViewOK(fs);
    var core := CoreOf(fs, e.k);
    assert fs.code == core + [fs.code[e.k.pc - 1], Jmp(PENDING)];
  }

  /** A comparison whose jump is taken with `sense`, in the list of that sense. */
  function Compared(res: Leave, sense: bool): Leave {
    if !res.AtEnd? then res else if res.v == Bool(sense) then Away(sense, Free) else AtEnd(Bool(!sense), Free)
  }

  lemma VJmpLists(c: Ctx, fs: Func, e: Exp, res: Leave)
    requires Shape(c, fs, e) && Sound(c, fs, e, res) && e.k.VJmp?
    ensures View(fs) == fs.code && Lists(c, fs.code, e.t + [e.k.pc], e.f) && !Carries(fs.code, e.k.pc)
    ensures Reaches(c, fs.code, [], e.t + [e.k.pc], e.f, -1, Compared(res, true))
  {
    hide Lists, Reaches, Shape, Sound;
    VJmpCore(c, fs, e, res);
    var core := CoreOf(fs, e.k);
    AppendTest(c, core, e.t, e.f, fs.code[e.k.pc - 1], true, res, Compared(res, true));
  }

  /** A comparison that falls through is false: the loads behind it start with that one. */
  lemma FalseFirst(c: Ctx, code: seq<Instr>, t: seq<int>, f: seq<int>, reg: int, res: Leave)
    requires Lists(c, code, t, f) && Reaches(c, code, [], t, f, -1, res) && reg != NO_REG
    requires res.AtEnd? ==> res.v == Bool(false)
    ensures var whole := code + [LoadBool(reg, false, true), LoadBool(reg, true, false)];
            Placed(c, whole, [], t, f, reg, res)
  {
    hide Framed, Own;
    var loads := [LoadBool(reg, false, true), LoadBool(reg, true, false)];
    var whole := code + loads;
    RunsPrefix(c.env, code, whole, c.p0, c.regs);
    var (pos, mid) := Exec(c.env, code, c.p0, c.regs);
    assert forall j :: 0 <= j < |code| ==> whole[j] == code[j];
    assert pos in t || pos in f || pos in c.out ==> Pending(code, pos);
    if pos == |code| {
      var (n, next) := Step(c.env, whole[pos], pos, mid);
      assert Exec(c.env, whole, pos, mid) == Exec(c.env, whole, n, next) == (|whole|, mid[reg := Bool(false)]);
    }
  }

  lemma InRegValue(c: Ctx, fs: Func, reg: int, one: Leave, other: Leave)
    requires InReg(c, fs, [], [], reg, one) && one.AtEnd? && other.AtEnd? && (c.en.Here? ==> one.v == other.v)
    ensures InReg(c, fs, [], [], reg, other)
  {
  }

  lemma ShapeOwn(c: Ctx, fs: Func, e: Exp)
    requires Shape(c, fs, e)
    ensures FuncOK(fs) && Own(c, fs.jpc) && Tail(View(fs), e.k)
  {
  }

  lemma JumpNeeds(c: Ctx, code: seq<Instr>, e: Exp)
    requires e.k.VJmp? && Lists(c, code, e.t + [e.k.pc], e.f) && !Carries(code, e.k.pc)
    ensures e.t + [e.k.pc] != e.f && NeedValue(code, e.t + [e.k.pc])
  {
    var t := e.t + [e.k.pc];
    assert t[|e.t|] == e.k.pc && e.k.pc in t;
    SomeExit(c, code, t, e.f);
  }

  lemma ResolveJumpIs(fs: Func, e: Exp, reg: int)
    requires HasJumps(e) && NeedValue(fs.code, e.t) && e.k.VJmp? && fs.jpc == []
    ensures var (fs2, pF, pT) := LoadLabels(fs, reg, true);
            ResolveExits(fs, e, reg) == PatchExits(fs2, e, reg, pF, pT)
    ensures ResolveExits(fs, e, reg).nactvar == fs.nactvar && ResolveExits(fs, e, reg).freereg == fs.freereg
  {
    LoadLabelsIs(fs, reg, true);
  }

  /** Code that falls through with false, behind which the boolean loads are put. */
  lemma FalseToReg(c: Ctx, fs: Func, e: Exp, reg: int, res: Leave)
    requires FuncOK(fs) && fs.jpc == [] && View(fs) == fs.code && reg != NO_REG
    requires Lists(c, fs.code, e.t, e.f) && Reaches(c, fs.code, [], e.t, e.f, -1, res)
    requires res.AtEnd? ==> res.v == Bool(false)
    ensures var (fs2, pF, pT) := LoadLabels(fs, reg, true);
            InReg(c, PatchExits(fs2, e, reg, pF, pT), [], [], reg, AtEnd(Final(res), Free))
            && NoneCarried(PatchExits(fs2, e, reg, pF, pT))
  {
    hide InReg, PatchExits, Lists, Reaches, Placed, Raw, ExitsOK, LoadLabels, FuncOK;
    NoJpc(c, fs);
    RawShape(c, fs, e.t, e.f);
    LoadsLabelled(c, fs, e.t, e.f, reg);
    LoadLabelsIs(fs, reg, true);
    FalseFirst(c, fs.code, e.t, e.f, reg, res);
    var (fs2, pF, pT) := LoadLabels(fs, reg, true);
    FinishExits(c, fs2, e, reg, pF, pT, res);
  }

  lemma NoJpc(c: Ctx, fs: Func)
    requires fs.jpc == []
    ensures Own(c, fs.jpc)
  {
  }

  /** A comparison into a register: its jump joins the true exits. */
  lemma JumpToReg(c: Ctx, fs: Func, e: Exp, reg: int, res: Leave)
    requires Shape(c, fs, e) && Sound(c, fs, e, res) && e.k.VJmp? && reg != NO_REG
    ensures var e2 := e.(t := e.t + [e.k.pc]);
            && InReg(c, ResolveExits(fs, e2, reg), [], [], reg, AtEnd(Final(res), Free))
            && NoneCarried(ResolveExits(fs, e2, reg))
            && ResolveExits(fs, e2, reg).nactvar == fs.nactvar && ResolveExits(fs, e2, reg).freereg == fs.freereg
  {
    hide InReg, PatchExits, Lists, Reaches, Shape, Sound, LoadLabels, ResolveExits, NeedValue, NoneCarried, View,
           CoreOf;
    var e2 := e.(t := e.t + [e.k.pc]);
    var after := Compared(res, true);
    ShapeOwn(c, fs, e);
    VJmpCore(c, fs, e, res);
    VJmpLists(c, fs, e, res);
    JumpNeeds(c, fs.code, e);
    ResolveJumpIs(fs, e2, reg);
    FalseToReg(c, fs, e2, reg, after);
    InRegValue(c, ResolveExits(fs, e2, reg), reg, AtEnd(Final(after), Free), AtEnd(Final(res), Free));
  }

  lemma ResolveValue(c: Ctx, fs: Func, e: Exp, reg: int, res: Leave)
    requires InReg(c, fs, e.t, e.f, reg, res) && reg != NO_REG && !e.k.VJmp?
    ensures var fs1 := ResolveExits(fs, e, reg);
            && InReg(c, fs1, [], [], reg, AtEnd(Final(res), Free))
            && (NoneCarried(fs) ==> NoneCarried(fs1))
            && fs1.nactvar == fs.nactvar && fs1.freereg == fs.freereg
  {
    hide Raw, Reaches, LoadLabels, Framed, Own, Runs;
    SomeExit(c, View(fs), e.t, e.f);
    if HasJumps(e) {
      RawShape(c, fs, e.t, e.f);
      RawReaches(c, fs, e.t, e.f, reg, res);
      LoadLabelsIs(fs, reg, false);
      if NeedValue(fs.code, e.t) || NeedValue(fs.code, e.f) {
        ValueToReg(c, fs, e, reg, res);
      } else {
        CarriedToReg(c, fs, e, reg, res);
      }
    } else {
      NoJumpsEnd(c, fs, res, reg);
    }
  }

  lemma NoJumpsEnd(c: Ctx, fs: Func, res: Leave, reg: int)
    requires InReg(c, fs, [], [], reg, res)
    ensures InReg(c, fs, [], [], reg, AtEnd(Final(res), Free))
  {
  }

  lemma Exp2RegPlaced(c: Ctx, fs: Func, e: Exp, reg: int, res: Leave)
    requires Shape(c, fs, e) && Sound(c, fs, e, res) && 0 <= reg
    ensures var (fs1, e1) := Exp2Reg(fs, e, reg);
            && InReg(c, fs1, [], [], reg, AtEnd(Final(res), Free))
            && e1 == Exp(VNonReloc(reg), [], [])
            && (!StaysIn(e.k, reg) ==> NoneCarried(fs1))
            && fs1.nactvar == fs.nactvar && fs1.freereg == fs.freereg
  {
    hide InReg, ResolveExits, Shape, Sound;
    if e.k.VJmp? {
      JumpToReg(c, fs, e, reg, res);
    } else {
      Discharge2RegPlaced(c, fs, e, reg, res);
      var (fs1, e1) := Discharge2Reg(fs, e, reg);
      ResolveValue(c, fs1, e1, reg, Settled(e.k, res));
    }
  }

  // ---- operand registers

  lemma InRegMeans(c: Ctx, fs: Func, t: seq<int>, f: seq<int>, reg: int, res: Leave)
    requires InReg(c, fs, t, f, reg, res) && NoneCarried(fs)
    requires fs.nactvar <= c.fr == reg && fs.freereg == c.fr + 1
    ensures Means(c, fs, Exp(VNonReloc(reg), t, f), if res.AtEnd? then res.(c := Free) else res)
  {
    assert CoreOf(fs, VNonReloc(reg)) == View(fs);
  }

  lemma Discharge2AnyRegMeans(c: Ctx, fs: Func, e: Exp, res: Leave)
    requires Means(c, fs, e, res) && !e.k.VJmp? && !e.k.VLocal? && !e.k.VGlobal?
    ensures var (fs1, e1) := Discharge2AnyReg(fs, e);
            && Means(c, fs1, e1, if e.k.VNonReloc? || !res.AtEnd? then res else res.(c := Free))
            && e1.k.VNonReloc? && e1.t == e.t && e1.f == e.f && fs1.nactvar == fs.nactvar
            && FreeExp(fs1, e1) == fs1.(freereg := c.fr)
  {
    if !e.k.VNonReloc? {
      var fs1 := ReserveRegs(fs, 1);
      assert View(fs1) == View(fs);
      hide Lists, Reaches, InReg;
      Discharge2RegPlaced(c, fs1, e, c.fr, res);
      var (fs2, e2) := Discharge2Reg(fs1, e, c.fr);
      InRegMeans(c, fs2, e.t, e.f, c.fr, Settled(e.k, res));
    }
  }

  lemma FreedIs(c: Ctx, fs: Func, e: Exp, res: Leave)
    requires Means(c, fs, e, res) && !e.k.VLocal?
    ensures fs.nactvar <= c.fr && FreeExp(fs, e) == fs.(freereg := c.fr)
  {
  }

  lemma FreeSound(c: Ctx, fs: Func, e: Exp, res: Leave, freereg: int)
    requires Means(c, fs, e, res)
    ensures Shape(c, fs.(freereg := freereg), e) && Sound(c, fs.(freereg := freereg), e, res)
  {
    assert View(fs.(freereg := freereg)) == View(fs);
  }

  /** The value of a descriptor in the next free register, which is always `fr`. */
  lemma Exp2NextRegMeans(c: Ctx, fs: Func, e: Exp, res: Leave)
    requires Means(c, fs, e, res) && (e.k.VNonReloc? ==> e.k.r < fs.nactvar)
    ensures var (fs1, e1) := Exp2NextReg(fs, e);
            && Means(c, fs1, e1, AtEnd(Final(res), Free)) && InReg(c, fs1, [], [], c.fr, AtEnd(Final(res), Free))
            && e1 == Exp(VNonReloc(c.fr), [], []) && fs1.nactvar == fs.nactvar && NoneCarried(fs1)
  {
    hide Means, InReg, Exp2Reg, Shape, Sound, RegOK, NoneCarried, FreeExp, DischargeVars;
    DischargeVarsMeans(c, fs, e, res);
    var (fs1, e1) := DischargeVars(fs, e);
    NotYet(c, fs, e, res);
    NextRegister(c, fs1, e1, Settled(e.k, res));
    assert Exp2NextReg(fs, e) == Exp2Reg(fs1.(freereg := c.fr + 1), e1, c.fr) by {
      FreedIs(c, fs1, e1, Settled(e.k, res));
    }
  }

  lemma NextRegister(c: Ctx, fs: Func, e: Exp, res: Leave)
    requires Means(c, fs, e, res) && !e.k.VLocal? && !StaysIn(e.k, c.fr)
    ensures var (fs1, e1) := Exp2Reg(fs.(freereg := c.fr + 1), e, c.fr);
            && Means(c, fs1, e1, AtEnd(Final(res), Free)) && InReg(c, fs1, [], [], c.fr, AtEnd(Final(res), Free))
            && e1 == Exp(VNonReloc(c.fr), [], []) && fs1.nactvar == fs.nactvar && NoneCarried(fs1)
  {
    hide Means, InReg, Exp2Reg, Shape, Sound, RegOK, NoneCarried, FreeExp;
    FreedIs(c, fs, e, res);
    FreeSound(c, fs, e, res, c.fr + 1);
    Exp2RegPlaced(c, fs.(freereg := c.fr + 1), e, c.fr, res);
    InRegMeans(c, Exp2Reg(fs.(freereg := c.fr + 1), e, c.fr).0, [], [], c.fr, AtEnd(Final(res), Free));
  }

  lemma NotYet(c: Ctx, fs: Func, e: Exp, res: Leave)
    requires Means(c, fs, e, res) && (e.k.VNonReloc? ==> e.k.r < fs.nactvar)
    ensures !StaysIn(DischargeVars(fs, e).1.k, c.fr)
  {
  }

  /** A value with exits is in no register of its own. */
  predicate Variable(fs: Func, e: Exp) { e.k.VNonReloc? && HasJumps(e) ==> e.k.r < fs.nactvar }

  lemma Exp2AnyRegMeans(c: Ctx, fs: Func, e: Exp, res: Leave)
    requires Means(c, fs, e, res) && Variable(fs, e)
    ensures var (fs1, e1) := Exp2AnyReg(fs, e);
            && Means(c, fs1, e1, if (e.k.VLocal? || e.k.VNonReloc?) && !HasJumps(e) then res
                                 else AtEnd(Final(res), Free))
            && e1.k.VNonReloc? && !HasJumps(e1) && fs1.nactvar == fs.nactvar
  {
    hide Exp2NextReg, Exp2Reg, Shape, Sound, InReg;
    DischargeVarsMeans(c, fs, e, res);
    var (fs1, e1) := DischargeVars(fs, e);
    if e1.k.VNonReloc? && !HasJumps(e1) {
    } else {
      if e.k.VLocal? {
        LocalRegister(c, fs, e, res);
      }
      Exp2NextRegMeans(c, fs1, e1, Settled(e.k, res));
      assert Exp2NextReg(fs1, e1) == Exp2AnyReg(fs, e);
    }
  }

  lemma LocalRegister(c: Ctx, fs: Func, e: Exp, res: Leave)
    requires Means(c, fs, e, res) && e.k.VLocal?
    ensures e.k.r < fs.nactvar
  {
  }

  predicate IsOperand(e: Exp) { (e.k.VK? || e.k.VNonReloc?) && e.t == [] == e.f }

  /** Code that runs through to its end, where the operand `e` holds `v`. */
  ghost predicate Operand(c: Ctx, fs: Func, e: Exp, v: Value, h: Hold) {
    var (pos, mid) := Exec(c.env, View(fs), c.p0, c.regs);
    && IsOperand(e)
    && FuncOK(fs) && Own(c, fs.jpc) && Lists(c, View(fs), [], [])
    && RegOK(fs.nactvar, c.fr, fs.freereg, e.k)
    && Reaches(c, View(fs), [], [], [], -1, AtEnd(v, h))
    && (c.en.Here? ==> GetRK(mid, RKOf(e)) == v && h == HeldIn(c, fs))
  }

  lemma ConstantOperand(c: Ctx, fs: Func, e: Exp, res: Leave, v: Value)
    requires Means(c, fs, e, res) && !HasJumps(e)
    requires (e.k == VTrue && v == Bool(true)) || (e.k == VFalse && v == Bool(false)) || e.k == VK(v)
    ensures c.en.Here? ==> res.AtEnd? && res.v == v
    ensures Operand(c, fs, e.(k := VK(v)), v, if res.AtEnd? then res.c else Free)
  {
    assert CoreOf(fs, e.k) == View(fs);
    SomeExit(c, View(fs), e.t, e.f);
  }

  lemma RegisterOperand(c: Ctx, fs: Func, e: Exp, res: Leave)
    requires Means(c, fs, e, res) && !HasJumps(e) && e.k.VNonReloc?
    ensures c.en.Here? ==> res.AtEnd?
    ensures Operand(c, fs, e, Final(res), if res.AtEnd? then res.c else Free)
  {
    assert CoreOf(fs, e.k) == View(fs);
    SomeExit(c, View(fs), e.t, e.f);
  }

  /** What an operand of a comparison leaves waiting: everything, when it needs no code. */
  function OperandRest(e: Exp, res: Leave): Hold {
    if res.AtEnd? && !HasJumps(e) && (e.k.VTrue? || e.k.VFalse? || e.k.VK? || e.k.VLocal? || e.k.VNonReloc?) then res.c
    else Free
  }

  lemma Exp2RKMeans(c: Ctx, fs: Func, e: Exp, res: Leave)
    requires Means(c, fs, e, res) && Variable(fs, e)
    ensures var (fs1, e1) := Exp2RK(fs, e);
            Operand(c, fs1, e1, Final(res), OperandRest(e, res)) && fs1.nactvar == fs.nactvar
  {
    hide Means, Operand, Exp2AnyReg;
    if HasJumps(e) {
      Exp2AnyRegMeans(c, fs, e, res);
      var (fs1, e1) := Exp2AnyReg(fs, e);
      Exp2AnyRegMeans(c, fs1, e1, AtEnd(Final(res), Free));
      var (fs2, e2) := Exp2AnyReg(fs1, e1);
      RegisterOperand(c, fs2, e2, AtEnd(Final(res), Free));
    } else {
      DischargeVarsMeans(c, fs, e, res);
      var (fs1, e1) := DischargeVars(fs, e);
      PlainOperand(c, fs1, e1, Settled(e.k, res));
      assert Final(Settled(e.k, res)) == Final(res);
    }
  }

  lemma ConstantIsOperand(c: Ctx, fs: Func, e: Exp, res: Leave, v: Value)
    requires Means(c, fs, e, res) && !HasJumps(e)
    requires (e.k == VTrue && v == Bool(true)) || (e.k == VFalse && v == Bool(false)) || e.k == VK(v)
    ensures Operand(c, fs, e.(k := VK(v)), Final(res), if res.AtEnd? then res.c else Free)
  {
    ConstantOperand(c, fs, e, res, v);
  }

  lemma PlainOperand(c: Ctx, fs: Func, e: Exp, res: Leave)
    requires Means(c, fs, e, res) && !HasJumps(e) && !e.k.VLocal? && !e.k.VGlobal?
    ensures var (fs1, e1) := Exp2RK(fs, e);
            Operand(c, fs1, e1, Final(res), OperandRest(e, res)) && fs1.nactvar == fs.nactvar
  {
    hide Means, Operand, Exp2AnyReg;
    match e.k
    case VTrue => ConstantIsOperand(c, fs, e, res, Bool(true));
    case VFalse => ConstantIsOperand(c, fs, e, res, Bool(false));
    case VK(v) => ConstantIsOperand(c, fs, e, res, v);
    case _ =>
      Exp2AnyRegMeans(c, fs, e, res);
      var (fs1, e1) := Exp2AnyReg(fs, e);
      var res1 := if e.k.VNonReloc? then res else AtEnd(Final(res), Free);
      RegisterOperand(c, fs1, e1, res1);
  }

  // ---- jumps on the value

  /** After a jump on the value: what goes on is at the end, everything else has left. */
  ghost predicate Arrives(c: Ctx, fs: Func, t: seq<int>, f: seq<int>, res: Leave) {
    && FuncOK(fs) && Own(c, fs.jpc)
    && Lists(c, View(fs), t, f)
    && Reaches(c, View(fs), [], t, f, -1, res)
    && (Ended(c, res) ==> res.c == HeldIn(c, fs))
    && fs.nactvar <= c.fr == fs.freereg
  }

  lemma PlainArrives(c: Ctx, fs: Func, t: seq<int>, f: seq<int>, res: Leave)
    requires fs.jpc == [] && fs.nactvar <= c.fr == fs.freereg
    requires Lists(c, fs.code, t, f) && Reaches(c, fs.code, [], t, f, -1, res)
    requires Ended(c, res) ==> res.c == Free
    ensures Arrives(c, fs, t, f, res)
  {
    ViewOK(fs);
  }

  /** A test at the end of the code and its jump, which joins the list of `sense`. */
  lemma CondJumpArrives(c: Ctx, fs: Func, t: seq<int>, f: seq<int>, test: Instr, sense: bool, res: Leave, after: Leave)
    requires FuncOK(fs) && Lists(c, View(fs), t, f) && Unset(test)
    requires Reaches(c, View(fs), [], t, f, -1, res) && TestLeaves(c, View(fs), test, sense, res, after)
    requires Ended(c, after) ==> after.c == Free
    requires fs.nactvar <= c.fr == fs.freereg
    ensures var (fs1, pc) := CondJump(fs, test);
            Arrives(c, fs1, if sense then t + pc else t, if sense then f else f + pc, after)
                && fs1.nactvar == fs.nactvar
  {
    hide Arrives, Lists, Reaches, TestLeaves, View, CondJump;
    CondJumpIs(fs, test);
    AppendTest(c, View(fs), t, f, test, sense, res, after);
    var fs1 := fs.(code := View(fs) + [test, Jmp(PENDING)], jpc := []);
    var pc := [|fs.code| + 1];
    PlainArrives(c, fs1, if sense then t + pc else t, if sense then f else f + pc, after);
  }

  /** Where the run goes when the code ends in a jump on the value, before the exits of the other sense join in. */
  function Jumped(k: End, r: Leave, cond: bool): Leave {
    if !r.AtEnd? then r
    else if !cond && (k == ETrue || k == EConst) then r
    else if !cond && k == EFalse then ByFalse(r.c)
    else if cond && k == EFalse then r
    else if cond && k == ETrue then ByTrue(r.c)
    else if IsFalse(r.v) == cond then AtEnd(r.v, Free)
    else Away(cond, if k == ETest || k == ENot then Free else Held(r.v))
  }

  function Joined(r: Leave, sense: bool): Leave {
    match r
    case ByTrue(h) => if sense then AtEnd(Nil, h) else r
    case ByFalse(h) => if sense then r else AtEnd(Nil, h)
    case AtEnd(_, _) => r
  }

  lemma JumpIfIs(k: End, r: Leave, sense: bool)
    ensures JumpIf(k, r, sense) == Joined(Jumped(k, r, !sense), sense)
  {
  }

  /** The descriptor is what the end of the expression says. */
  predicate Fits(fs: Func, e: Exp, k: End) {
    match k
    case ETrue => e.k.VTrue?
    case EFalse => e.k.VFalse?
    case EConst => e.k.VK?
    case ELocal => e.k.VLocal? && e.k.r < fs.nactvar
    case EGlobal => e.k.VGlobal?
    case EReg => e.k.VNonReloc? && e.k.r < fs.nactvar
    case ELoad => e.k.VReloc? && 0 <= e.k.pc < |fs.code| && fs.code[e.k.pc].GetGlobal?
    case ENot => e.k.VReloc? && 0 <= e.k.pc < |fs.code| && fs.code[e.k.pc].Not?
    case ETest => e.k.VJmp?
  }

  lemma JumpOnValue(c: Ctx, fs: Func, e: Exp, cond: bool, k: End, res: Leave)
    requires Means(c, fs, e, res) && Fits(fs, e, k) && (k == EReg || k == ELoad || (cond && k == EConst))
    ensures var (fs1, pc) := JumpOnCond(fs, e, cond);
            && Arrives(c, fs1, if cond then e.t + pc else e.t, if cond then e.f else e.f + pc, Jumped(k, res, cond))
            && fs1.nactvar == fs.nactvar
  {
    hide Arrives, Lists, Reaches, CondJump, Discharge2AnyReg;
    Discharge2AnyRegMeans(c, fs, e, res);
    var (fs1, e1) := Discharge2AnyReg(fs, e);
    var res1 := if e.k.VNonReloc? || !res.AtEnd? then res else res.(c := Free);
    var fs2 := FreeExp(fs1, e1);
    assert View(fs2) == View(fs1);
    assert CoreOf(fs1, e1.k) == View(fs1);
    var test := TestSet(NO_REG, e1.k.r, cond);
    RegisterTest(c, fs1, e1, cond, res1, Jumped(k, res, cond));
    CondJumpArrives(c, fs2, e.t, e.f, test, cond, res1, Jumped(k, res, cond));
  }

  lemma RegisterTest(c: Ctx, fs: Func, e: Exp, cond: bool, res: Leave, after: Leave)
    requires Means(c, fs, e, res) && e.k.VNonReloc?
    requires if !res.AtEnd? then after == res
             else if IsFalse(res.v) == cond then after.AtEnd? else after == Away(cond, Held(res.v))
    ensures TestLeaves(c, View(fs), TestSet(NO_REG, e.k.r, cond), cond, res, after)
  {
    hide Lists;
    assert CoreOf(fs, e.k) == View(fs);
  }

  /** The value is a negation: its instruction is dropped and its operand tested with the other sense. */
  lemma JumpOnNot(c: Ctx, fs: Func, e: Exp, cond: bool, res: Leave)
    requires Means(c, fs, e, res) && Fits(fs, e, ENot)
    ensures var (fs1, pc) := JumpOnCond(fs, e, cond);
            && Arrives(c, fs1, if cond then e.t + pc else e.t, if cond then e.f else e.f + pc, Jumped(ENot, res, cond))
            && fs1.nactvar == fs.nactvar
  {
    hide Arrives, Lists, Reaches, CondJump;
    NotCore(c, fs, e, res);
    DropLast(fs, e);
    var fs1 := fs.(code := fs.code[..|fs.code| - 1]);
    CondJumpArrives(c, fs1, e.t, e.f, Test(fs.code[e.k.pc].b, !cond), cond, res, Jumped(ENot, res, cond));
  }

  lemma NotCore(c: Ctx, fs: Func, e: Exp, res: Leave)
    requires Means(c, fs, e, res) && Fits(fs, e, ENot)
    ensures FuncOK(fs) && fs.jpc == [] && Tail(View(fs), e.k) && WellFormed(CoreOf(fs, e.k))
    ensures Lists(c, CoreOf(fs, e.k), e.t, e.f) && Reaches(c, CoreOf(fs, e.k), [], e.t, e.f, -1, res)
    ensures fs.nactvar <= c.fr == fs.freereg
    ensures forall cond ::
              TestLeaves(c, CoreOf(fs, e.k), Test(fs.code[e.k.pc].b, !cond), cond, res, Jumped(ENot, res, cond))
  {
    ViewOK(fs);
  }

  /** What is left when `list` is aimed at the end of the code. */
  lemma PatchHereLists(c: Ctx, code: seq<Instr>, t: seq<int>, f: seq<int>, sense: bool)
    requires Lists(c, code, t, f)
    ensures var list := if sense then t else f;
            && Aimed(code, list, |code|, |code|)
            && Lists(c, Patch(code, list, |code|, NO_REG, |code|), if sense then [] else t, if sense then f else [])
  {
    var n := |code|;
    var list, t1, f1 := if sense then t else f, if sense then [] else t, if sense then f else [];
    var patched := Patch(code, list, n, NO_REG, n);
    PatchedFramed(c, code, list, n, NO_REG, n);
    if n > 0 {
      assert WellPlaced(code, n - 1);
    }
    PatchRuns(code, list, n, NO_REG, n, c.p0);
    hide Framed, Runs, Own;
    PatchKeeps(code, list, NO_REG, n, t1);
    PatchKeeps(code, list, NO_REG, n, f1);
    PatchKeeps(code, list, NO_REG, n, c.out);
    PatchHereExits(c, code, t, f, sense);
  }

  lemma PatchHereExits(c: Ctx, code: seq<Instr>, t: seq<int>, f: seq<int>, sense: bool)
    requires Exits(c, code, t, f)
    requires var patched := Patch(code, if sense then t else f, |code|, NO_REG, |code|);
             Waiting(patched, if sense then [] else t) && Waiting(patched, if sense then f else [])
                 && Waiting(patched, c.out)
    ensures Exits(c, Patch(code, if sense then t else f, |code|, NO_REG, |code|), if sense then [] else t,
              if sense then f else [])
  {
    var n := |code|;
    var list, t1, f1 := if sense then t else f, if sense then [] else t, if sense then f else [];
    var patched := Patch(code, list, n, NO_REG, n);
    assert forall i :: 0 <= i < n ==> patched[i] == PatchedAt(code, list, n, NO_REG, n, i);
    forall j | c.p0 < j && Blank(patched, j) ensures j in t1 || j in f1 || j in c.out {
      assert Blank(code, j) && j !in list;
    }
    forall j | c.p0 <= j && Pending(patched, j) ensures j in t1 || j in f1 || j in c.out {
      assert Pending(code, j) && j !in list;
    }
  }

  /** Runs of resolved code whose `list` is aimed at the end. */
  lemma PatchHereReaches(c: Ctx, code: seq<Instr>, t: seq<int>, f: seq<int>, sense: bool, res: Leave)
    requires Lists(c, code, t, f) && Reaches(c, code, [], t, f, -1, res)
    ensures var list := if sense then t else f;
            Reaches(c, Patch(code, list, |code|, NO_REG, |code|), [], if sense then [] else t, if sense then f
                                                                      else [], -1, Joined(res, sense))
  {
    hide Framed, Own, Same, Runs;
    var n := |code|;
    var list := if sense then t else f;
    PatchHereLists(c, code, t, f, sense);
    ExecPatch(c.env, code, list, n, NO_REG, n, c.p0, c.regs);
    PatchKeeps(code, list, NO_REG, n, if sense then f else t);
    PatchKeeps(code, list, NO_REG, n, c.out);
    var (pos, mid) := Exec(c.env, code, c.p0, c.regs);
    assert pos in list ==> Exec(c.env, Patch(code, list, n, NO_REG, n), n, mid) == (n, mid);
  }

  /** What waits for the current position, once a list has joined it. */
  lemma HereHeld(c: Ctx, fs: Func, t: seq<int>, f: seq<int>, sense: bool, res: Leave)
    requires Arrives(c, fs, t, f, res)
    ensures var res1 := Joined(res, sense);
            Ended(c, res1) ==> res1.c == HeldIn(c, PatchToHere(fs, if sense then t else f))
  {
    hide Framed, Own, Same, Runs, View, Exec, WellFormed;
    RawReaches(c, fs, t, f, -1, res);
    RawShape(c, fs, t, f);
    var list := if sense then t else f;
    var here := PatchToHere(fs, list);
    assert forall j :: j in here.jpc <==> j in fs.jpc || j in list;
    assert forall j :: j in list || j in fs.jpc ==> Pending(fs.code, j);
  }

  /** The exits with the sense that goes on join it. */
  lemma PatchToHereArrives(c: Ctx, fs: Func, t: seq<int>, f: seq<int>, sense: bool, res: Leave)
    requires Arrives(c, fs, t, f, res)
    ensures Arrives(c, PatchToHere(fs, if sense then t else f), if sense then [] else t, if sense then f
            else [], Joined(res, sense))
  {
    HereHeld(c, fs, t, f, sense, res);
    hide Reaches, Framed, Runs;
    var list := if sense then t else f;
    PatchToHereIs(fs, list);
    PatchHereLists(c, View(fs), t, f, sense);
    PatchHereReaches(c, View(fs), t, f, sense, res);
  }

  /** A constant of the wanted sense needs no jump. */
  lemma ConstantArrives(c: Ctx, fs: Func, e: Exp, cond: bool, k: End, res: Leave)
    requires Means(c, fs, e, res) && Fits(fs, e, k)
    requires if cond then k == EFalse else k == ETrue || k == EConst
    ensures Arrives(c, fs, e.t, e.f, Jumped(k, res, cond))
  {
    hide Lists, Reaches;
    assert CoreOf(fs, e.k) == View(fs);
  }

  lemma JumpLists(c: Ctx, fs: Func, t: seq<int>, f: seq<int>, sense: bool)
    requires FuncOK(fs) && Own(c, fs.jpc) && Lists(c, View(fs), t, f)
    ensures var pc := [|fs.code|] + fs.jpc;
            Lists(c, fs.code + [Jmp(PENDING)], if sense then t + pc else t, if sense then f else f + pc)
  {
    hide Framed;
    RawShape(c, fs, t, f);
    AppendJumpRaw(c, fs, t, f);
    var fs1 := fs.(code := fs.code + [Jmp(PENDING)], jpc := [|fs.code|] + fs.jpc);
    RawJoins(c, fs1, t, f, sense);
  }

  lemma RawJoins(c: Ctx, fs: Func, t: seq<int>, f: seq<int>, sense: bool)
    requires Raw(c, fs, t, f)
    ensures Lists(c, fs.code, if sense then t + fs.jpc else t, if sense then f else f + fs.jpc)
  {
    hide Framed, Runs;
    var t1, f1 := if sense then t + fs.jpc else t, if sense then f else f + fs.jpc;
    assert forall j :: j in t1 <==> j in t || (sense && j in fs.jpc);
    assert forall j :: j in f1 <==> j in f || (!sense && j in fs.jpc);
  }

  /** A literal of the other sense always jumps; its jump takes over the jumps that wait for its position, with whatever
      they carry. */
  lemma LiteralJumps(c: Ctx, fs: Func, e: Exp, cond: bool, k: End, res: Leave)
    requires Means(c, fs, e, res) && Fits(fs, e, k) && k == (if cond then ETrue else EFalse)
    ensures var (fs1, pc) := Jump(fs);
            Arrives(c, fs1, if cond then e.t + pc else e.t, if cond then e.f else e.f + pc, Jumped(k, res, cond))
  {
    hide Framed, Own, Runs, Same;
    var (fs1, pc) := Jump(fs);
    assert CoreOf(fs, e.k) == View(fs);
    assert View(fs1) == fs1.code == fs.code + [Jmp(PENDING)];
    JumpLists(c, fs, e.t, e.f, cond);
    LiteralReaches(c, fs, e.t, e.f, cond, res, Jumped(k, res, cond));
    PlainArrives(c, fs1, if cond then e.t + pc else e.t, if cond then e.f else e.f + pc, Jumped(k, res, cond));
  }

  lemma JumpCarries(c: Ctx, fs: Func, t: seq<int>, f: seq<int>)
    requires FuncOK(fs) && Own(c, fs.jpc) && Lists(c, View(fs), t, f)
    ensures Runs(fs.code, c.p0) && !Carries(fs.code + [Jmp(PENDING)], |fs.code|)
    ensures forall j :: j in t || j in f || j in fs.jpc || j in c.out ==>
              j < |fs.code| && Carries(fs.code + [Jmp(PENDING)], j) == Carries(fs.code, j)
  {
    hide Framed, Own;
    RawShape(c, fs, t, f);
    AppendJumpRaw(c, fs, t, f);
  }

  lemma LiteralReaches(c: Ctx, fs: Func, t: seq<int>, f: seq<int>, cond: bool, res: Leave, after: Leave)
    requires FuncOK(fs) && Own(c, fs.jpc) && Lists(c, View(fs), t, f) && Reaches(c, View(fs), [], t, f, -1, res)
    requires Ended(c, res) ==> res.c == HeldIn(c, fs)
    requires after == if res.AtEnd? then Away(cond, res.c) else res
    ensures var pc := [|fs.code|] + fs.jpc;
            Reaches(c, fs.code + [Jmp(PENDING)], [], if cond then t + pc else t, if cond then f else f + pc, -1, after)
  {
    hide Framed, Own, Same, Lists, Exits, Waiting, FuncOK, Runs;
    var pc := [|fs.code|] + fs.jpc;
    RawReaches(c, fs, t, f, -1, res);
    JumpCarries(c, fs, t, f);
    JumpStops(c, fs.code);
    RunsPrefix(c.env, fs.code, fs.code + [Jmp(PENDING)], c.p0, c.regs);
    assert forall j :: j in pc <==> j == |fs.code| || j in fs.jpc;
    assert forall j :: 0 <= j < |fs.code| ==> (fs.code + [Jmp(PENDING)])[j] == fs.code[j];
  }

  /** A comparison leaves on true through its own jump. */
  lemma TestGoesFalse(c: Ctx, fs: Func, e: Exp, res: Leave)
    requires Means(c, fs, e, res) && e.k.VJmp?
    ensures Arrives(c, fs, e.t + [e.k.pc], e.f, Jumped(ETest, res, true))
  {
    hide Lists, Reaches;
    VJmpCore(c, fs, e, res);
    VJmpLists(c, fs, e, res);
    assert Ended(c, res) ==> Compared(res, true) == Jumped(ETest, res, true) || Jumped(ETest, res, true).AtEnd?;
    ReachesSame(c, fs.code, e.t + [e.k.pc], e.f, Compared(res, true), Jumped(ETest, res, true));
    PlainArrives(c, fs, e.t + [e.k.pc], e.f, Jumped(ETest, res, true));
  }

  lemma ReachesSame(c: Ctx, code: seq<Instr>, t: seq<int>, f: seq<int>, one: Leave, other: Leave)
    requires Reaches(c, code, [], t, f, -1, one)
    requires c.en.Here? ==> one == other || (one.AtEnd? && other.AtEnd?)
    ensures Reaches(c, code, [], t, f, -1, other)
  {
  }

  /** The comparison at the end, with its condition inverted. */
  lemma InvertJumpIs(fs: Func, e: Exp, p0: int)
    requires FuncOK(fs) && fs.jpc == [] && Tail(View(fs), e.k) && e.k.VJmp?
    ensures View(fs) == fs.code
    ensures var core := CoreOf(fs, e.k);
            var test := fs.code[e.k.pc - 1];
            var turned := test.(cond := !test.cond);
            var fs1 := InvertJump(fs, e);
            && fs.code == core + [test, Jmp(PENDING)]
            && fs1 == fs.(code := core + [turned, Jmp(PENDING)])
            && View(fs1) == fs1.code && WellFormed(fs1.code)
            && Tail(View(fs1), e.k) && CoreOf(fs1, e.k) == core
  {
    ViewOK(fs);
    var code := fs.code;
    var core := code[..|code| - 2];
    assert core == CoreOf(fs, e.k);
    var test := code[e.k.pc - 1];
    assert code == core + [test, Jmp(PENDING)];
    var turned := test.(cond := !test.cond);
    var fs1 := InvertJump(fs, e);
    assert fs1.code == core + [turned, Jmp(PENDING)];
    assert View(fs1) == fs1.code;
    forall i | 0 <= i < |fs1.code| ensures WellPlaced(fs1.code, i) {
      assert WellPlaced(code, i);
    }
  }

  /** The inverted comparison leaves on false and falls through on true. */
  lemma TestGoesTrue(c: Ctx, fs: Func, e: Exp, res: Leave)
    requires Means(c, fs, e, res) && e.k.VJmp?
    ensures Arrives(c, InvertJump(fs, e), e.t, e.f + [e.k.pc], Jumped(ETest, res, false))
  {
    hide Lists, Reaches, InvertJump;
    VJmpCore(c, fs, e, res);
    InvertJumpIs(fs, e, c.p0);
    var core := CoreOf(fs, e.k);
    var test := fs.code[e.k.pc - 1];
    AppendTest(c, core, e.t, e.f, test.(cond := !test.cond), false, res, Jumped(ETest, res, false));
    PlainArrives(c, InvertJump(fs, e), e.t, e.f + [e.k.pc], Jumped(ETest, res, false));
  }

  /** How the exits change: the jump of the other sense joins its list, the list of the own sense joins what follows. */
  lemma GoIfTrueArrives(c: Ctx, fs: Func, e: Exp, k: End, res: Leave)
    requires Means(c, fs, e, res) && Fits(fs, e, k)
    ensures var (fs1, e1) := GoIfTrue(fs, e);
            Arrives(c, fs1, [], e1.f, JumpIf(k, res, true)) && e1.t == [] && fs1.nactvar == fs.nactvar
  {
    hide Means, Arrives, DischargeVars, JumpOnCond, InvertJump, JumpIf, Jumped;
    DischargeVarsMeans(c, fs, e, res);
    DischargeFits(fs, e, k);
    var (fs1, e1) := DischargeVars(fs, e);
    var k1, res1 := Discharged(k), Settled(e.k, res);
    SettledJump(k, e.k, res, false);
    JumpIfIs(k, res, true);
    var fs2, pc;
    match k1 {
      case EConst =>
        ConstantArrives(c, fs1, e1, false, k1, res1);
        fs2, pc := fs1, [];
      case ETrue =>
        ConstantArrives(c, fs1, e1, false, k1, res1);
        fs2, pc := fs1, [];
      case EFalse =>
        LiteralJumps(c, fs1, e1, false, k1, res1);
        fs2, pc := Jump(fs1).0, Jump(fs1).1;
      case ETest =>
        TestGoesTrue(c, fs1, e1, res1);
        InvertSame(fs1, e1);
        fs2, pc := InvertJump(fs1, e1), [e1.k.pc];
      case ENot =>
        JumpOnNot(c, fs1, e1, false, res1);
        fs2, pc := JumpOnCond(fs1, e1, false).0, JumpOnCond(fs1, e1, false).1;
      case _ =>
        JumpOnValue(c, fs1, e1, false, k1, res1);
        fs2, pc := JumpOnCond(fs1, e1, false).0, JumpOnCond(fs1, e1, false).1;
    }
    assert e1.f + [] == e1.f;
    PatchToHereArrives(c, fs2, e1.t, e1.f + pc, true, Jumped(k1, res1, false));
  }

  lemma InvertSame(fs: Func, e: Exp)
    ensures InvertJump(fs, e).nactvar == fs.nactvar && InvertJump(fs, e).freereg == fs.freereg
  {
  }

  lemma DischargeFits(fs: Func, e: Exp, k: End)
    requires Fits(fs, e, k)
    ensures var (fs1, e1) := DischargeVars(fs, e); Fits(fs1, e1, Discharged(k)) && e1.t == e.t && e1.f == e.f
  {
  }

  lemma SettledJump(k: End, kind: Kind, res: Leave, cond: bool)
    requires k == EGlobal <==> kind.VGlobal?
    ensures Jumped(Discharged(k), Settled(kind, res), cond) == Jumped(k, res, cond)
  {
  }

  lemma GoIfFalseArrives(c: Ctx, fs: Func, e: Exp, k: End, res: Leave)
    requires Means(c, fs, e, res) && Fits(fs, e, k)
    ensures var (fs1, e1) := GoIfFalse(fs, e);
            Arrives(c, fs1, e1.t, [], JumpIf(k, res, false)) && e1.f == [] && fs1.nactvar == fs.nactvar
  {
    hide Means, Arrives, DischargeVars, JumpOnCond, JumpIf, Jumped;
    DischargeVarsMeans(c, fs, e, res);
    DischargeFits(fs, e, k);
    var (fs1, e1) := DischargeVars(fs, e);
    var k1, res1 := Discharged(k), Settled(e.k, res);
    SettledJump(k, e.k, res, true);
    JumpIfIs(k, res, false);
    var fs2, pc;
    match k1 {
      case EFalse =>
        ConstantArrives(c, fs1, e1, true, k1, res1);
        fs2, pc := fs1, [];
      case ETrue =>
        LiteralJumps(c, fs1, e1, true, k1, res1);
        fs2, pc := Jump(fs1).0, Jump(fs1).1;
      case ETest =>
        TestGoesFalse(c, fs1, e1, res1);
        fs2, pc := fs1, [e1.k.pc];
      case ENot =>
        JumpOnNot(c, fs1, e1, true, res1);
        fs2, pc := JumpOnCond(fs1, e1, true).0, JumpOnCond(fs1, e1, true).1;
      case _ =>
        JumpOnValue(c, fs1, e1, true, k1, res1);
        fs2, pc := JumpOnCond(fs1, e1, true).0, JumpOnCond(fs1, e1, true).1;
    }
    assert e1.t + [] == e1.t;
    PatchToHereArrives(c, fs2, e1.t + pc, e1.f, false, Jumped(k1, res1, true));
  }

  // ---- negation

  lemma StripFramed(c: Ctx, code: seq<Instr>, t: seq<int>, f: seq<int>)
    requires Framed(c, code) && Own(c, t) && Own(c, f)
    ensures Framed(c, Strip(code, t, f))
  {
    StripIs(code, t, f);
    var n := |c.base.code|;
    forall i | 0 <= i < n && i !in c.base.jpc && i + 1 !in c.base.jpc ensures Strip(code, t, f)[i] == c.base.code[i] {
      assert Strip(code, t, f)[i] == StripAt(code, t, f, i);
      assert WellPlaced(c.base.code, i) && code[i] == c.base.code[i];
    }
  }

  /** The exit lists exchanged, their values removed; other lists keep theirs. */
  lemma StripExits(c: Ctx, code: seq<Instr>, t: seq<int>, f: seq<int>)
    requires Exits(c, code, t, f)
    ensures var stripped := Strip(code, t, f);
            && Exits(c, stripped, f, t)
            && (forall j :: j in t || j in f ==> !Carries(stripped, j))
            && (forall j :: j in c.out ==> Carries(stripped, j) == Carries(code, j))
            && (forall j :: j in c.out && Carries(code, j) ==> stripped[j - 1] == code[j - 1])
  {
    var stripped := Strip(code, t, f);
    StripIs(code, t, f);
    forall j | j in t || j in f ensures Pending(stripped, j) && !Carries(stripped, j) {
      assert Pending(code, j);
      assert j > 0 ==> stripped[j - 1] == StripAt(code, t, f, j - 1);
    }
    forall j | j in c.out
      ensures Pending(stripped, j) && Carries(stripped, j) == Carries(code, j)
      ensures Carries(code, j) ==> stripped[j - 1] == code[j - 1]
    {
      assert Pending(code, j) && j !in t && j !in f;
      assert j > 0 ==> stripped[j - 1] == StripAt(code, t, f, j - 1);
    }
    forall j | c.p0 <= j && Pending(stripped, j) ensures j in t || j in f || j in c.out {
      assert Pending(code, j);
    }
    forall j | c.p0 < j && Blank(stripped, j) ensures j in c.out {
      assert stripped[j - 1] == StripAt(code, t, f, j - 1);
      assert Blank(code, j);
    }
  }

  lemma StripLists(c: Ctx, code: seq<Instr>, t: seq<int>, f: seq<int>)
    requires Lists(c, code, t, f)
    ensures Lists(c, Strip(code, t, f), f, t)
  {
    hide Exits, Runs, Framed, Own;
    StripExits(c, code, t, f);
    StripRuns(code, t, f, c.p0);
    StripFramed(c, code, t, f);
  }

  function Exchanged(res: Leave): Leave {
    match res
    case ByTrue(_) => ByFalse(Free)
    case ByFalse(_) => ByTrue(Free)
    case AtEnd(_, _) => res
  }

  lemma StripReaches(c: Ctx, code: seq<Instr>, t: seq<int>, f: seq<int>, res: Leave)
    requires Lists(c, code, t, f) && Reaches(c, code, [], t, f, -1, res)
    ensures Exec(c.env, Strip(code, t, f), c.p0, c.regs) == Exec(c.env, code, c.p0, c.regs)
    ensures Reaches(c, Strip(code, t, f), [], f, t, -1, Exchanged(res))
  {
    hide Framed, Own, Same;
    ExecStrip(c.env, code, t, f, c.p0, c.regs);
    StripExits(c, code, t, f);
  }

  lemma StripHeld(c: Ctx, fs: Func, t: seq<int>, f: seq<int>)
    requires Raw(c, fs, t, f)
    ensures HeldIn(c, fs.(code := Strip(fs.code, t, f))) == HeldIn(c, fs)
  {
    hide Framed, Own;
    ExecStrip(c.env, fs.code, t, f, c.p0, c.regs);
    StripIs(fs.code, t, f);
    var pos := Exec(c.env, fs.code, c.p0, c.regs).0;
    if pos in fs.jpc && pos > 0 {
      assert Pending(fs.code, pos);
      assert Strip(fs.code, t, f)[pos - 1] == StripAt(fs.code, t, f, pos - 1);
    }
  }

  lemma ExchangeShape(c: Ctx, fs: Func, e: Exp)
    requires Shape(c, fs, e)
    ensures var fs1 := fs.(code := Strip(fs.code, e.t, e.f));
            && Shape(c, fs1, Exp(e.k, e.f, e.t))
            && View(fs1) == Strip(View(fs), e.t, e.f)
            && CoreOf(fs1, e.k) == Strip(CoreOf(fs, e.k), e.t, e.f)
            && Waiting(View(fs), e.t) && Waiting(View(fs), e.f)
  {
    hide Runs, Framed, Own;
    var view := View(fs);
    var core := CoreOf(fs, e.k);
    forall j | j in e.t || j in e.f
      ensures Pending(view, j) && Carries(core, j) == Carries(view, j)
    {
      assert Pending(core, j);
    }
    StripView(fs, e.t, e.f);
    StripPrefix(view, e.t, e.f, |core|);
    StripLists(c, core, e.t, e.f);
    ExchangeTail(view, e);
  }

  /** Stripping leaves what the waiting jumps bring along as it is. */
  lemma ExchangeHeld(c: Ctx, fs: Func, e: Exp)
    requires Shape(c, fs, e)
    ensures HeldIn(c, fs.(code := Strip(fs.code, e.t, e.f))) == HeldIn(c, fs)
  {
    if fs.jpc != [] {
      assert CoreOf(fs, e.k) == View(fs);
      RawShape(c, fs, e.t, e.f);
      StripHeld(c, fs, e.t, e.f);
    }
  }

  /** A descriptor that yields `v` at its end, with its exit lists stripped and exchanged. */
  lemma ExchangeMeans(c: Ctx, fs: Func, e: Exp, res: Leave, after: Leave)
    requires Shape(c, fs, e) && RegOK(fs.nactvar, c.fr, fs.freereg, e.k)
    requires Reaches(c, CoreOf(fs, e.k), [], e.t, e.f, -1, res)
    requires if res.AtEnd? then after.AtEnd? else after == Exchanged(res)
    requires Ended(c, res) ==> after.c == HeldIn(c, fs)
                               && Yields(c.env, View(fs), e.k, Exec(c.env, CoreOf(fs, e.k), c.p0, c.regs).1, after.v)
    ensures Means(c, fs.(code := Strip(fs.code, e.t, e.f)), Exp(e.k, e.f, e.t), after)
  {
    hide Lists, Reaches, FuncOK, Own, HeldIn;
    ExchangeShape(c, fs, e);
    ExchangeHeld(c, fs, e);
    ShapeLists(c, fs, e);
    StripReaches(c, CoreOf(fs, e.k), e.t, e.f, res);
    ReachesSame(c, Strip(CoreOf(fs, e.k), e.t, e.f), e.f, e.t, Exchanged(res), after);
    ExchangeTail(View(fs), e);
  }

  lemma ShapeLists(c: Ctx, fs: Func, e: Exp)
    requires Shape(c, fs, e)
    ensures Lists(c, CoreOf(fs, e.k), e.t, e.f)
  {
  }

  function NotLeave(k: End, res: Leave): Leave {
    match res
    case ByTrue(_) => ByFalse(Free)
    case ByFalse(_) => ByTrue(Free)
    case AtEnd(v, h) => AtEnd(Bool(IsFalse(v)), if k == ETrue || k == EFalse || k == EConst then h else Free)
  }

  lemma LiteralNot(c: Ctx, fs: Func, e: Exp, kind: Kind, k: End, res: Leave)
    requires Means(c, fs, e, res) && Fits(fs, e, k)
    requires (k == EFalse && kind.VTrue?) || ((k == ETrue || k == EConst) && kind.VFalse?)
    ensures Means(c, fs.(code := Strip(fs.code, e.t, e.f)), Exp(kind, e.f, e.t), NotLeave(k, res))
  {
    hide Lists, Reaches;
    assert CoreOf(fs, e.k) == CoreOf(fs, kind) == View(fs);
    ExchangeMeans(c, fs, e.(k := kind), res, NotLeave(k, res));
  }

  lemma JumpNot(c: Ctx, fs: Func, e: Exp, res: Leave)
    requires Means(c, fs, e, res) && e.k.VJmp?
    ensures var fs1 := InvertJump(fs, e);
            Means(c, fs1.(code := Strip(fs1.code, e.t, e.f)), Exp(e.k, e.f, e.t), NotLeave(ETest, res))
  {
    hide Lists, Reaches, InvertJump;
    VJmpCore(c, fs, e, res);
    InvertJumpIs(fs, e, c.p0);
    ExchangeMeans(c, InvertJump(fs, e), e, res, NotLeave(ETest, res));
  }

  lemma ValueNot(c: Ctx, fs: Func, e: Exp, k: End, res: Leave)
    requires Means(c, fs, e, res) && (e.k.VReloc? || e.k.VNonReloc?) && (k == EReg || k == ELoad || k == ENot)
    ensures var (g, d) := Discharge2AnyReg(fs, e);
            && d.k.VNonReloc? && g.nactvar == fs.nactvar
            && var fs1 := Emit(FreeExp(g, d), Not(0, d.k.r));
               && Means(c, fs1.(code := Strip(fs1.code, e.t, e.f)), Exp(VReloc(|g.code|), e.f, e.t), NotLeave(k, res))
               && fs1.nactvar == fs.nactvar && |Strip(fs1.code, e.t, e.f)| == |g.code| + 1
                    && Strip(fs1.code, e.t, e.f)[|g.code|].Not?
  {
    hide Discharge2AnyReg, Lists, Reaches, Shape, Sound, RegOK, View, Strip, Emit;
    Discharge2AnyRegMeans(c, fs, e, res);
    var (g, d) := Discharge2AnyReg(fs, e);
    var res1 := if e.k.VNonReloc? || !res.AtEnd? then res else res.(c := Free);
    RegisterNot(c, g, d, res1, NotLeave(k, res));
    var fs1 := Emit(FreeExp(g, d), Not(0, d.k.r));
    StripLast(fs1.code, e.t, e.f);
  }

  /** A negation behind the register that has the value, with the lists exchanged. */
  lemma RegisterNot(c: Ctx, fs: Func, e: Exp, res: Leave, after: Leave)
    requires Means(c, fs, e, res) && e.k.VNonReloc?
    requires if res.AtEnd? then after == AtEnd(Bool(IsFalse(res.v)), Free) else after == Exchanged(res)
    ensures var fs1 := Emit(FreeExp(fs, e), Not(0, e.k.r));
            && Means(c, fs1.(code := Strip(fs1.code, e.t, e.f)), Exp(VReloc(|fs.code|), e.f, e.t), after)
            && fs1.nactvar == fs.nactvar && |fs1.code| == |fs.code| + 1 && fs1.code[|fs.code|].Not?
  {
    hide Lists, Reaches;
    var g := FreeExp(fs, e);
    assert View(g) == View(fs) && CoreOf(fs, e.k) == View(fs);
    EmitReloc(c, g, e, Not(0, e.k.r));
    var fs1, e1 := Emit(g, Not(0, e.k.r)), e.(k := VReloc(|fs.code|));
    EmitView(g, Not(0, e.k.r));
    ExchangeMeans(c, fs1, e1, res, after);
  }

  lemma StripLast(code: seq<Instr>, t: seq<int>, f: seq<int>)
    requires code != [] && code[|code| - 1].Not?
    ensures Strip(code, t, f)[|code| - 1].Not?
  {
    StripIs(code, t, f);
    assert Strip(code, t, f)[|code| - 1] == StripAt(code, t, f, |code| - 1);
  }

  function NotEnd(k: End): End {
    match Discharged(k)
    case EFalse => ETrue
    case ETrue => EFalse
    case EConst => EFalse
    case ETest => ETest
    case _ => ENot
  }

  lemma CodeNotMeans(c: Ctx, fs: Func, e: Exp, k: End, res: Leave)
    requires Means(c, fs, e, res) && Fits(fs, e, k)
    ensures var (fs1, e1) := CodeNot(fs, e);
            Means(c, fs1, e1, NotLeave(k, res)) && Fits(fs1, e1, NotEnd(k)) && fs1.nactvar == fs.nactvar
  {
    hide Means, DischargeVars, Discharge2AnyReg, InvertJump, FreeExp, Emit, RemoveValues;
    DischargeVarsMeans(c, fs, e, res);
    DischargeFits(fs, e, k);
    var (fs1, e1) := DischargeVars(fs, e);
    var res1 := Settled(e.k, res);
    assert NotLeave(Discharged(k), res1) == NotLeave(k, res);
    match Discharged(k)
    case EFalse => LiteralNot(c, fs1, e1, VTrue, EFalse, res1);
    case ETrue => LiteralNot(c, fs1, e1, VFalse, ETrue, res1);
    case EConst => LiteralNot(c, fs1, e1, VFalse, EConst, res1);
    case ETest => JumpNot(c, fs1, e1, res1); InvertSame(fs1, e1);
    case _ => ValueNot(c, fs1, e1, Discharged(k), res1);
  }

  // ---- two operands

  /** Where the second operand of `and` and `or` begins: the exits so far wait elsewhere. */
  function Second(c: Ctx, fs: Func, t: seq<int>, f: seq<int>, res: Leave): Ctx {
    var (pos, mid) := Exec(c.env, View(fs), c.p0, c.regs);
    c.(out := c.out + (t + f),
       en := if c.en.Outside? then c.en
             else match res
                  case ByTrue(h) => Outside(pos, mid, h)
                  case ByFalse(h) => Outside(pos, mid, h)
                  case AtEnd(_, _) => Here(mid))
  }

  /** Code to which an expression is about to be added: a run that has arrived brings `h` along. */
  ghost predicate Starts(c: Ctx, fs: Func, h: Hold) {
    && Arrives(c, fs, [], [], AtEnd(Nil, h))
    && (c.en.Here? ==> c.en.mid == Exec(c.env, View(fs), c.p0, c.regs).1)
  }

  lemma SecondStarts(c: Ctx, fs: Func, t: seq<int>, f: seq<int>, res: Leave)
    requires Arrives(c, fs, t, f, res)
    ensures Starts(Second(c, fs, t, f, res), fs, if res.AtEnd? then res.c else Free)
  {
    hide Runs;
    var c2 := Second(c, fs, t, f, res);
    assert forall j :: j in c2.out <==> j in c.out || j in t || j in f;
    assert HeldIn(c2, fs) == HeldIn(c, fs);
  }

  lemma SecondLists(c: Ctx, fs: Func, t: seq<int>, f: seq<int>, res: Leave, code: seq<Instr>, t2: seq<int>,
          f2: seq<int>)
    requires Arrives(c, fs, t, f, res) && Lists(Second(c, fs, t, f, res), code, t2, f2)
    ensures Lists(c, code, t2 + t, f2 + f)
  {
    var c2 := Second(c, fs, t, f, res);
    ArrivesExits(c, fs, t, f, res);
    hide Runs, Arrives;
    assert forall j :: j in c2.out <==> j in c.out || j in t || j in f;
    assert forall j :: j in t2 + t <==> j in t2 || j in t;
    assert forall j :: j in f2 + f <==> j in f2 || j in f;
  }

  lemma ArrivesExits(c: Ctx, fs: Func, t: seq<int>, f: seq<int>, res: Leave)
    requires Arrives(c, fs, t, f, res)
    ensures Own(c, t) && Own(c, f)
    ensures forall j :: j in t ==> j !in f && j !in c.out
    ensures forall j :: j in f ==> j !in c.out
  {
  }

  lemma SameTrans(fr: int, fr2: int, a: Regs, b: Regs, d: Regs)
    requires Same(fr, -1, a, b) && Same(fr2, -1, b, d) && fr <= fr2
    ensures Same(fr, -1, a, d)
  {
  }

  lemma SecondReaches(c: Ctx, fs: Func, t: seq<int>, f: seq<int>, res: Leave, code: seq<Instr>, t2: seq<int>,
          f2: seq<int>, res2: Leave)
    requires Arrives(c, fs, t, f, res) && Reaches(Second(c, fs, t, f, res), code, [], t2, f2, -1, res2)
    ensures Reaches(c, code, [], t2 + t, f2 + f, -1, if res.AtEnd? then res2 else res)
  {
    hide Lists, FuncOK, Own, Same;
    var (pos, mid) := Exec(c.env, View(fs), c.p0, c.regs);
    var last := Exec(c.env, code, c.p0, c.regs).1;
    if c.en.Here? && res.AtEnd? {
      SameTrans(c.fr, c.fr, c.en.mid, mid, last);
    }
  }

  /** The second operand runs only when the first one has the sense of the operator. */
  lemma SecondMeans(c: Ctx, fs: Func, t: seq<int>, f: seq<int>, res: Leave, fs1: Func, e: Exp, res2: Leave)
    requires Arrives(c, fs, t, f, res) && Means(Second(c, fs, t, f, res), fs1, e, res2)
    ensures Means(c, fs1, Exp(e.k, e.t + t, e.f + f), if res.AtEnd? then res2 else res)
  {
    hide Lists, Reaches, Arrives, FuncOK;
    var core := CoreOf(fs1, e.k);
    SecondLists(c, fs, t, f, res, core, e.t, e.f);
    SecondReaches(c, fs, t, f, res, core, e.t, e.f, res2);
  }

  // ---- comparisons

  lemma OperandAgain(fs: Func, e: Exp)
    requires IsOperand(e)
    ensures Exp2RK(fs, e) == (fs, e)
  {
  }

  /** Where the second operand of a comparison begins. */
  function OtherSide(c: Ctx, fs: Func): Ctx {
    c.(en := if c.en.Outside? then c.en else Here(Exec(c.env, View(fs), c.p0, c.regs).1), fr := fs.freereg)
  }

  lemma OtherStarts(c: Ctx, fs: Func, e: Exp, v: Value, h: Hold)
    requires Operand(c, fs, e, v, h)
    ensures Starts(OtherSide(c, fs), fs, h) && c.fr <= fs.freereg
  {
    hide Runs;
    assert HeldIn(OtherSide(c, fs), fs) == HeldIn(c, fs);
  }

  /** Two operands in place: both values are there, and nothing else has left. */
  ghost predicate Both(c: Ctx, fs: Func, o1: RK, o2: RK, v1: Value, v2: Value) {
    var mid := Exec(c.env, View(fs), c.p0, c.regs).1;
    && FuncOK(fs) && Own(c, fs.jpc) && Lists(c, View(fs), [], [])
    && Reaches(c, View(fs), [], [], [], -1, AtEnd(Nil, Free))
    && (c.en.Here? ==> GetRK(mid, o1) == v1 && GetRK(mid, o2) == v2)
  }

  lemma OperandsCompose(c: Ctx, fs1: Func, d1: Exp, v1: Value, h1: Hold, fs2: Func, d2: Exp, v2: Value, h2: Hold)
    requires Operand(c, fs1, d1, v1, h1) && Operand(OtherSide(c, fs1), fs2, d2, v2, h2) && fs2.nactvar == fs1.nactvar
    ensures var fs3 := FreeExp(FreeExp(fs2, d2), d1);
            && fs3 == fs2.(freereg := c.fr) && fs2.nactvar <= c.fr
            && Both(c, fs3, RKOf(d1), RKOf(d2), v1, v2)
  {
    hide Runs;
    var fs3 := fs2.(freereg := c.fr);
    assert View(fs3) == View(fs2);
    var mid1 := Exec(c.env, View(fs1), c.p0, c.regs).1;
    var mid := Exec(c.env, View(fs2), c.p0, c.regs).1;
    if c.en.Here? {
      SameTrans(c.fr, fs1.freereg, c.en.mid, mid1, mid);
    }
  }

  /** The comparison of two operands whose code is in place. */
  lemma CompareMeans(c: Ctx, fs: Func, op: Relation, cond: bool, o1: RK, o2: RK, v1: Value, v2: Value, v: Value)
    requires Both(c, fs, o1, o2, v1, v2)
    requires fs.nactvar <= c.fr == fs.freereg
    requires v == Bool(c.env.holds(op, v1, v2) == cond)
    ensures var (fs1, pc) := CondJump(fs, Compare(op, cond, o1, o2));
            |pc| == 1 && Means(c, fs1, Exp(VJmp(pc[0]), [], []), AtEnd(v, Free)) && fs1.nactvar == fs.nactvar
  {
    hide Lists;
    var test := Compare(op, cond, o1, o2);
    CondJumpIs(fs, test);
    var (fs1, pc) := CondJump(fs, test);
    ViewOK(fs);
    BothRuns(c, fs, o1, o2, v1, v2);
    AppendTestRuns(View(fs), test, c.p0);
    var k := VJmp(pc[0]);
    assert Tail(View(fs1), k);
    assert CoreOf(fs1, k) == View(fs);
  }

  lemma BothRuns(c: Ctx, fs: Func, o1: RK, o2: RK, v1: Value, v2: Value)
    requires Both(c, fs, o1, o2, v1, v2)
    ensures Runs(View(fs), c.p0)
  {
  }

  lemma CodeCompMeans(c: Ctx, fs1: Func, d1: Exp, v1: Value, h1: Hold, fs3: Func, e2: Exp, res2: Leave, op: Relation,
          cond: bool)
    requires Operand(c, fs1, d1, v1, h1) && Means(OtherSide(c, fs1), fs3, e2, res2) && Variable(fs3, e2)
    requires fs3.nactvar == fs1.nactvar
    ensures var (fs4, e4) := CodeComp(fs3, op, cond, d1, e2);
            var v2 := Final(res2);
            var v := if !cond && op != Equal then Bool(c.env.holds(op, v2, v1))
                     else Bool(c.env.holds(op, v1, v2) == cond);
            Means(c, fs4, e4, AtEnd(v, Free)) && e4.k.VJmp? && fs4.nactvar == fs3.nactvar
  {
    hide Operand, Means, Exp2RK, CondJump, FreeExp, Both;
    OperandIs(c, fs1, d1, v1, h1);
    OperandAgain(fs3, d1);
    Exp2RKMeans(OtherSide(c, fs1), fs3, e2, res2);
    var (fs2, d2) := Exp2RK(fs3, e2);
    var v2 := Final(res2);
    OperandsCompose(c, fs1, d1, v1, h1, fs2, d2, v2, OperandRest(e2, res2));
    var g := fs2.(freereg := c.fr);
    if !cond && op != Equal {
      BothTurned(c, g, RKOf(d1), RKOf(d2), v1, v2);
      CompareMeans(c, g, op, true, RKOf(d2), RKOf(d1), v2, v1, Bool(c.env.holds(op, v2, v1)));
    } else {
      CompareMeans(c, g, op, cond, RKOf(d1), RKOf(d2), v1, v2, Bool(c.env.holds(op, v1, v2) == cond));
    }
  }

  lemma OperandIs(c: Ctx, fs: Func, e: Exp, v: Value, h: Hold)
    requires Operand(c, fs, e, v, h)
    ensures IsOperand(e)
  {
  }

  lemma BothTurned(c: Ctx, fs: Func, o1: RK, o2: RK, v1: Value, v2: Value)
    requires Both(c, fs, o1, o2, v1, v2)
    ensures Both(c, fs, o2, o1, v2, v1)
  {
  }

  lemma PosfixRelMeans(c: Ctx, fs1: Func, d1: Exp, v1: Value, h1: Hold, fs3: Func, e2: Exp, res2: Leave, op: RelOp)
    requires Operand(c, fs1, d1, v1, h1) && Means(OtherSide(c, fs1), fs3, e2, res2) && Variable(fs3, e2)
    requires fs3.nactvar == fs1.nactvar
    ensures var (fs4, e4) := PosfixRel(fs3, op, d1, e2);
            && Means(c, fs4, e4, AtEnd(Bool(RelHolds(c.env, op, v1, Final(res2))), Free)) && e4.k.VJmp?
            && fs4.nactvar == fs3.nactvar
  {
    hide Operand, Means, CodeComp;
    match op
    case EQ => CodeCompMeans(c, fs1, d1, v1, h1, fs3, e2, res2, Equal, true);
    case NE => CodeCompMeans(c, fs1, d1, v1, h1, fs3, e2, res2, Equal, false);
    case LT => CodeCompMeans(c, fs1, d1, v1, h1, fs3, e2, res2, Less, true);
    case LE => CodeCompMeans(c, fs1, d1, v1, h1, fs3, e2, res2, LessEqual, true);
    case GT => CodeCompMeans(c, fs1, d1, v1, h1, fs3, e2, res2, Less, false);
    case GE => CodeCompMeans(c, fs1, d1, v1, h1, fs3, e2, res2, LessEqual, false);
  }

  // ---- whole expressions

  /** A run of the code before `x` that has arrived goes on as `Act` says; one that has left is not touched. */
  lemma LeafMeans(c: Ctx, fs: Func, kind: Kind, h: Hold, v: Value)
    requires Starts(c, fs, h)
    requires !kind.VJmp? && !kind.VReloc? && RegOK(fs.nactvar, c.fr, c.fr, kind)
    requires c.en.Here? ==> Yields(c.env, View(fs), kind, c.en.mid, v)
    ensures Means(c, fs, Exp(kind, [], []), AtEnd(v, h))
  {
    assert CoreOf(fs, kind) == View(fs);
  }

  /** The registers of the variables, where the expression begins. */
  function Locals(c: Ctx): Regs { if c.en.Here? then c.en.mid else map[] }

  ghost predicate Compiled(c: Ctx, fs: Func, x: Expr, h: Hold) {
    var (fs1, e1) := Compile(fs, x);
    && Means(c, fs1, e1, Act(c.env, x, Locals(c), h)) && Fits(fs1, e1, EndOf(x))
    && (e1.t != [] <==> Jumps(x).0) && (e1.f != [] <==> Jumps(x).1)
    && fs1.nactvar == fs.nactvar
  }

  lemma CompiledVariable(c: Ctx, fs: Func, x: Expr, h: Hold)
    requires Compiled(c, fs, x, h)
    ensures var (fs1, e1) := Compile(fs, x);
            Variable(fs1, e1) && (HasJumps(e1) <==> Jumps(x) != (false, false))
  {
    var (fs1, e1) := Compile(fs, x);
    SomeExit(c, CoreOf(fs1, e1.k), e1.t, e1.f);
  }

  lemma {:induction false} ActSame(env: Env, x: Expr, nactvar: nat, before: Regs, after: Regs, h: Hold)
    requires Scoped(x, nactvar) && Same(nactvar, -1, before, after)
    ensures Act(env, x, before, h) == Act(env, x, after, h)
    decreases x
  {
    match x
    case Negate(e) => ActSame(env, e, nactvar, before, after, h);
    case And(a, b) =>
      ActSame(env, a, nactvar, before, after, h);
      ActSame(env, b, nactvar, before, after, JumpIf(EndOf(a), Act(env, a, before, h), true).c);
    case Or(a, b) =>
      ActSame(env, a, nactvar, before, after, h);
      ActSame(env, b, nactvar, before, after, JumpIf(EndOf(a), Act(env, a, before, h), false).c);
    case Rel(_, a, b) =>
      ActSame(env, a, nactvar, before, after, h);
      ActSame(env, b, nactvar, before, after, OperandHold(a, Act(env, a, before, h)));
    case _ =>
  }

  lemma StartsNactvar(c: Ctx, fs: Func, h: Hold)
    requires Starts(c, fs, h)
    ensures fs.nactvar <= c.fr == fs.freereg
  {
  }

  lemma LeafCompiled(c: Ctx, fs: Func, x: Expr, h: Hold)
    requires Starts(c, fs, h) && Scoped(x, fs.nactvar) && (x.Local? || x.Global? || x.True? || x.False? || x.Const?)
    ensures Compiled(c, fs, x, h)
  {
    hide Starts;
    StartsNactvar(c, fs, h);
    var v := Act(c.env, x, Locals(c), h).v;
    LeafMeans(c, fs, Compile(fs, x).1.k, h, v);
  }

  /** The exits after a jump on the value. */
  lemma GoIfLists(fs: Func, e: Exp, k: End)
    requires Fits(fs, e, k)
    ensures GoIfTrue(fs, e).1.f != [] <==> e.f != [] || !(k == ETrue || k == EConst)
    ensures GoIfFalse(fs, e).1.t != [] <==> e.t != [] || k != EFalse
  {
    hide Emit, View, Discharge2AnyReg, InvertJump;
    DischargeFits(fs, e, k);
  }

  lemma NegateCompiled(c: Ctx, fs: Func, x: Expr, h: Hold)
    requires x.Negate? && Compiled(c, fs, x.e, h)
    ensures Compiled(c, fs, x, h)
  {
    hide Means, Fits;
    var (fs1, e1) := Compile(fs, x.e);
    CodeNotMeans(c, fs1, e1, EndOf(x.e), Act(c.env, x.e, Locals(c), h));
    NotLists(fs1, e1);
  }

  lemma NotLists(fs: Func, e: Exp)
    ensures CodeNot(fs, e).1.t == e.f && CodeNot(fs, e).1.f == e.t
  {
  }

  /** The first operand and the jump on its value. */
  ghost predicate Opened(c: Ctx, fs: Func, x: Expr, h: Hold)
    requires x.And? || x.Or?
  {
    var (fs1, e1) := Compile(fs, x.a);
    var (fs2, d1) := Infix(fs1, x, e1);
    && Arrives(c, fs2, d1.t, d1.f, JumpIf(EndOf(x.a), Act(c.env, x.a, Locals(c), h), x.And?))
    && (if x.And? then d1.t == [] else d1.f == [])
    && (x.And? ==> (d1.f != [] <==> Jumps(x.a).1 || !(EndOf(x.a) == ETrue || EndOf(x.a) == EConst)))
    && (x.Or? ==> (d1.t != [] <==> Jumps(x.a).0 || EndOf(x.a) != EFalse))
    && fs2.nactvar == fs.nactvar
  }

  lemma FirstOpened(c: Ctx, fs: Func, x: Expr, h: Hold)
    requires (x.And? || x.Or?) && Compiled(c, fs, x.a, h)
    ensures Opened(c, fs, x, h)
  {
    hide Means, Fits, Arrives, GoIfTrue, GoIfFalse, JumpIf;
    var (fs1, e1) := Compile(fs, x.a);
    var r := Act(c.env, x.a, Locals(c), h);
    GoIfLists(fs1, e1, EndOf(x.a));
    if x.And? {
      GoIfTrueArrives(c, fs1, e1, EndOf(x.a), r);
    } else {
      GoIfFalseArrives(c, fs1, e1, EndOf(x.a), r);
    }
  }

  /** The surroundings of the second operand, and what its evaluation starts from. */
  lemma SecondContext(c: Ctx, fs: Func, t: seq<int>, f: seq<int>, res: Leave, b: Expr)
    requires Arrives(c, fs, t, f, res) && Scoped(b, fs.nactvar)
    ensures var c2 := Second(c, fs, t, f, res);
            c.en.Outside? || res.AtEnd? ==>
              forall h :: Act(c.env, b, Locals(c), h) == Act(c2.env, b, Locals(c2), h)
  {
    var c2 := Second(c, fs, t, f, res);
    if c.en.Here? && res.AtEnd? {
      forall h ensures Act(c.env, b, Locals(c), h) == Act(c2.env, b, Locals(c2), h) {
        SameBelow(fs.nactvar, c.fr, Locals(c), Locals(c2));
        ActSame(c.env, b, fs.nactvar, Locals(c), Locals(c2), h);
      }
    }
  }

  lemma SameBelow(n: int, fr: int, a: Regs, b: Regs)
    requires Same(fr, -1, a, b) && n <= fr
    ensures Same(n, -1, a, b)
  {
  }

  lemma LogicCompiled(c: Ctx, fs: Func, x: Expr, h: Hold)
    requires (x.And? || x.Or?) && Opened(c, fs, x, h)
    requires var (fs1, e1) := Compile(fs, x.a);
             var (fs2, d1) := Infix(fs1, x, e1);
             var g := JumpIf(EndOf(x.a), Act(c.env, x.a, Locals(c), h), x.And?);
             Scoped(x.b, fs2.nactvar)
             && Compiled(Second(c, fs2, d1.t, d1.f, g), fs2, x.b, if g.AtEnd? then g.c else Free)
    ensures Compiled(c, fs, x, h)
  {
    hide Means, Arrives, Infix, JumpIf, Second, DischargeVars, Compiled, Act, Fits, EndOf;
    var (fs1, e1) := Compile(fs, x.a);
    var (fs2, d1) := Infix(fs1, x, e1);
    var g := JumpIf(EndOf(x.a), Act(c.env, x.a, Locals(c), h), x.And?);
    var c2 := Second(c, fs2, d1.t, d1.f, g);
    var (fs3, e2) := Compile(fs2, x.b);
    var h2 := if g.AtEnd? then g.c else Free;
    var r2 := Act(c2.env, x.b, Locals(c2), h2);
    CompiledMeans(c2, fs2, x.b, h2);
    DischargeVarsMeans(c2, fs3, e2, r2);
    DischargeFits(fs3, e2, EndOf(x.b));
    SettledLoaded(fs3, e2, EndOf(x.b), r2);
    var (fs4, d2) := DischargeVars(fs3, e2);
    SecondMeans(c, fs2, d1.t, d1.f, g, fs4, d2, Settled(e2.k, r2));
    SecondContext(c, fs2, d1.t, d1.f, g, x.b);
    SecondEnv(c, fs2, d1.t, d1.f, g);
    LogicAct(c.env, x, Locals(c), h);
    MeansLeave(c, fs4, Exp(d2.k, d2.t + d1.t, d2.f + d1.f), if g.AtEnd? then Settled(e2.k, r2)
                                                            else g, Act(c.env, x, Locals(c), h));
    CompiledLists(c2, fs2, x.b, h2);
    LogicDone(c, fs, x, h, fs2, d1, fs3, e2);
  }

  lemma LogicAct(env: Env, x: Expr, regs: Regs, h: Hold)
    requires x.And? || x.Or?
    ensures var g := JumpIf(EndOf(x.a), Act(env, x.a, regs, h), x.And?);
            Act(env, x, regs, h) == if g.AtEnd? then BoolAct.Loaded(EndOf(x.b), Act(env, x.b, regs, g.c)) else g
  {
  }

  lemma CompiledLists(c: Ctx, fs: Func, x: Expr, h: Hold)
    requires Compiled(c, fs, x, h)
    ensures var e1 := Compile(fs, x).1; (e1.t != [] <==> Jumps(x).0) && (e1.f != [] <==> Jumps(x).1)
  {
  }

  lemma LogicDone(c: Ctx, fs: Func, x: Expr, h: Hold, fs2: Func, d1: Exp, fs3: Func, e2: Exp)
    requires (x.And? || x.Or?) && Opened(c, fs, x, h)
    requires var (fs1, e1) := Compile(fs, x.a); Infix(fs1, x, e1) == (fs2, d1)
    requires Compile(fs2, x.b) == (fs3, e2) && (e2.t != [] <==> Jumps(x.b).0) && (e2.f != [] <==> Jumps(x.b).1)
    requires var (fs4, d2) := DischargeVars(fs3, e2);
             && Means(c, fs4, Exp(d2.k, d2.t + d1.t, d2.f + d1.f), Act(c.env, x, Locals(c), h))
             && Fits(fs4, d2, Discharged(EndOf(x.b))) && d2.t == e2.t && d2.f == e2.f && fs4.nactvar == fs.nactvar
    ensures Compiled(c, fs, x, h)
  {
    hide Means, Infix, Act, Arrives;
    var (fs4, d2) := DischargeVars(fs3, e2);
    assert d2.t + [] == d2.t && d2.f + [] == d2.f;
    assert Posfix(fs3, x, d1, e2) == (fs4, Exp(d2.k, d2.t + d1.t, d2.f + d1.f));
    assert Compile(fs, x) == Posfix(fs3, x, d1, e2);
    assert d2.t + d1.t != [] <==> d2.t != [] || d1.t != [];
    assert d2.f + d1.f != [] <==> d2.f != [] || d1.f != [];
  }

  lemma SecondEnv(c: Ctx, fs: Func, t: seq<int>, f: seq<int>, res: Leave)
    ensures Second(c, fs, t, f, res).env == c.env
  {
  }

  lemma SettledLoaded(fs: Func, e: Exp, k: End, res: Leave)
    requires Fits(fs, e, k)
    ensures Settled(e.k, res) == BoolAct.Loaded(k, res)
  {
  }

  /** For a run that has left, what the expression computes is of no account. */
  lemma MeansLeave(c: Ctx, fs: Func, e: Exp, one: Leave, other: Leave)
    requires Means(c, fs, e, one) && (c.en.Here? ==> one == other)
    ensures Means(c, fs, e, other)
  {
  }

  lemma RestHold(fs: Func, e: Exp, x: Expr, r: Leave)
    requires Fits(fs, e, EndOf(x)) && (HasJumps(e) <==> Jumps(x) != (false, false))
    ensures OperandRest(e, r) == OperandHold(x, r)
  {
  }

  lemma RelCompiled(c: Ctx, fs: Func, x: Expr, h: Hold)
    requires x.Rel? && Compiled(c, fs, x.a, h)
    requires var (fs1, e1) := Compile(fs, x.a);
             var fs2 := Exp2RK(fs1, e1).0;
             && Scoped(x.b, fs.nactvar) && fs.nactvar <= c.fr
             && Compiled(OtherSide(c, fs2), fs2, x.b, OperandHold(x.a, Act(c.env, x.a, Locals(c), h)))
    ensures Compiled(c, fs, x, h)
  {
    hide Means, Operand, Exp2RK, PosfixRel, OtherSide, Compiled, Act, Fits;
    var (fs1, e1) := Compile(fs, x.a);
    var r := Act(c.env, x.a, Locals(c), h);
    CompiledMeans(c, fs, x.a, h);
    CompiledVariable(c, fs, x.a, h);
    Exp2RKMeans(c, fs1, e1, r);
    RestHold(fs1, e1, x.a, r);
    var (fs2, d1) := Exp2RK(fs1, e1);
    var c2 := OtherSide(c, fs2);
    var s := Act(c2.env, x.b, Locals(c2), OperandHold(x.a, r));
    var (fs3, e2) := Compile(fs2, x.b);
    CompiledMeans(c2, fs2, x.b, OperandHold(x.a, r));
    CompiledVariable(c2, fs2, x.b, OperandHold(x.a, r));
    PosfixRelMeans(c, fs2, d1, Final(r), OperandRest(e1, r), fs3, e2, s, x.op);
    OtherSame(c, fs2, d1, Final(r), OperandRest(e1, r), x.b, fs.nactvar);
    OperandIs(c, fs2, d1, Final(r), OperandRest(e1, r));
    PosfixRelLists(fs3, x.op, d1, e2);
    RelAct(c.env, x, Locals(c), h);
    RelDone(c, fs, x, h, fs3, d1, e2, AtEnd(Bool(RelHolds(c.env, x.op, Final(r), Final(s))), Free));
  }

  lemma CompiledMeans(c: Ctx, fs: Func, x: Expr, h: Hold)
    requires Compiled(c, fs, x, h)
    ensures var (fs1, e1) := Compile(fs, x);
            Means(c, fs1, e1, Act(c.env, x, Locals(c), h)) && Fits(fs1, e1, EndOf(x)) && fs1.nactvar == fs.nactvar
  {
  }

  lemma RelDone(c: Ctx, fs: Func, x: Expr, h: Hold, fs3: Func, d1: Exp, e2: Exp, res: Leave)
    requires x.Rel?
    requires var (fs1, e1) := Compile(fs, x.a);
             var (fs2, d) := Exp2RK(fs1, e1);
             d == d1 && Compile(fs2, x.b) == (fs3, e2)
    requires var (fs4, e4) := PosfixRel(fs3, x.op, d1, e2);
             Means(c, fs4, e4, res) && e4.k.VJmp? && e4.t == [] == e4.f && fs4.nactvar == fs.nactvar
    requires res == Act(c.env, x, Locals(c), h)
    ensures Compiled(c, fs, x, h)
  {
    hide Means, Exp2RK, PosfixRel, Act;
    assert Compile(fs, x) == PosfixRel(fs3, x.op, d1, e2);
  }

  lemma RelAct(env: Env, x: Expr, regs: Regs, h: Hold)
    requires x.Rel?
    ensures var r := Act(env, x.a, regs, h);
            Act(env, x, regs, h) == AtEnd(Bool(RelHolds(env, x.op, Final(r),
                Final(Act(env, x.b, regs, OperandHold(x.a, r))))), Free)
  {
  }

  lemma PosfixRelLists(fs: Func, op: RelOp, e1: Exp, e2: Exp)
    requires IsOperand(e1)
    ensures PosfixRel(fs, op, e1, e2).1.t == [] == PosfixRel(fs, op, e1, e2).1.f
  {
    hide CondJump, Exp2AnyReg;
    OperandAgain(fs, e1);
  }

  lemma OtherSame(c: Ctx, fs: Func, e: Exp, v: Value, h: Hold, b: Expr, nactvar: nat)
    requires Operand(c, fs, e, v, h) && Scoped(b, nactvar) && nactvar <= c.fr
    ensures var c2 := OtherSide(c, fs);
            c2.env == c.env && forall g :: Act(c.env, b, Locals(c), g) == Act(c.env, b, Locals(c2), g)
  {
    hide Lists;
    var c2 := OtherSide(c, fs);
    forall g ensures Act(c.env, b, Locals(c), g) == Act(c.env, b, Locals(c2), g) {
      if c.en.Here? {
        SameBelow(nactvar, c.fr, Locals(c), Locals(c2));
        ActSame(c.env, b, nactvar, Locals(c), Locals(c2), g);
      }
    }
  }

  /** Every expression compiles to code that does what `Act` says, in every environment, from every state of the
      generator, for every run through the code before it. */
  lemma {:induction false} CompileMeans(c: Ctx, fs: Func, x: Expr, h: Hold)
    requires Starts(c, fs, h) && Scoped(x, fs.nactvar)
    ensures Compiled(c, fs, x, h)
    decreases x
  {
    hide Starts, Compiled, Opened, Second, OtherSide, Exp2RK, Infix;
    match x
    case Negate(e) =>
      CompileMeans(c, fs, e, h);
      NegateCompiled(c, fs, x, h);
    case And(a, b) =>
      CompileMeans(c, fs, a, h);
      LogicStarts(c, fs, x, h);
      var fs2 := Infix(Compile(fs, a).0, x, Compile(fs, a).1).0;
      var (c2, h2) := LogicSecond(c, fs, x, h);
      CompileMeans(c2, fs2, b, h2);
      LogicCompiled(c, fs, x, h);
    case Or(a, b) =>
      CompileMeans(c, fs, a, h);
      LogicStarts(c, fs, x, h);
      var fs2 := Infix(Compile(fs, a).0, x, Compile(fs, a).1).0;
      var (c2, h2) := LogicSecond(c, fs, x, h);
      CompileMeans(c2, fs2, b, h2);
      LogicCompiled(c, fs, x, h);
    case Rel(op, a, b) =>
      CompileMeans(c, fs, a, h);
      RelStarts(c, fs, x, h);
      var fs2 := Exp2RK(Compile(fs, a).0, Compile(fs, a).1).0;
      CompileMeans(OtherSide(c, fs2), fs2, b, OperandHold(a, Act(c.env, a, Locals(c), h)));
      RelCompiled(c, fs, x, h);
    case _ => LeafCompiled(c, fs, x, h);
  }

  ghost function LogicSecond(c: Ctx, fs: Func, x: Expr, h: Hold): (Ctx, Hold)
    requires x.And? || x.Or?
  {
    var (fs1, e1) := Compile(fs, x.a);
    var (fs2, d1) := Infix(fs1, x, e1);
    var g := JumpIf(EndOf(x.a), Act(c.env, x.a, Locals(c), h), x.And?);
    (Second(c, fs2, d1.t, d1.f, g), if g.AtEnd? then g.c else Free)
  }

  lemma LogicStarts(c: Ctx, fs: Func, x: Expr, h: Hold)
    requires (x.And? || x.Or?) && Starts(c, fs, h) && Compiled(c, fs, x.a, h) && Scoped(x.b, fs.nactvar)
    ensures var fs2 := Infix(Compile(fs, x.a).0, x, Compile(fs, x.a).1).0;
            var (c2, h2) := LogicSecond(c, fs, x, h);
            Opened(c, fs, x, h) && Starts(c2, fs2, h2) && Scoped(x.b, fs2.nactvar)
  {
    hide Starts, Compiled, Arrives, Infix, JumpIf, Second;
    FirstOpened(c, fs, x, h);
    StartsNactvar(c, fs, h);
    var (fs1, e1) := Compile(fs, x.a);
    var (fs2, d1) := Infix(fs1, x, e1);
    SecondStarts(c, fs2, d1.t, d1.f, JumpIf(EndOf(x.a), Act(c.env, x.a, Locals(c), h), x.And?));
  }

  lemma RelStarts(c: Ctx, fs: Func, x: Expr, h: Hold)
    requires x.Rel? && Starts(c, fs, h) && Compiled(c, fs, x.a, h) && Scoped(x.b, fs.nactvar)
    ensures var fs2 := Exp2RK(Compile(fs, x.a).0, Compile(fs, x.a).1).0;
            && Starts(OtherSide(c, fs2), fs2, OperandHold(x.a, Act(c.env, x.a, Locals(c), h)))
            && fs2.nactvar == fs.nactvar && fs.nactvar <= c.fr
  {
    hide Starts, Exp2RK, Operand, Means;
    StartsNactvar(c, fs, h);
    var (fs1, e1) := Compile(fs, x.a);
    var r := Act(c.env, x.a, Locals(c), h);
    CompiledVariable(c, fs, x.a, h);
    Exp2RKMeans(c, fs1, e1, r);
    RestHold(fs1, e1, x.a, r);
    var (fs2, d1) := Exp2RK(fs1, e1);
    OtherStarts(c, fs2, d1, Final(r), OperandRest(e1, r));
  }

  // ---- finished expressions

  /** What a finished expression guarantees: a run that has arrived ends behind it with `v` in `reg` and the registers
      in use untouched, any other run is not affected; no jump of the run's code is left unaimed except for the
      surroundings, no test writes to a register that does not exist, and older code is as it was. */
  ghost predicate Delivered(c: Ctx, fs: Func, reg: int, v: Value) {
    var code := View(fs);
    var (pos, mid) := Exec(c.env, code, c.p0, c.regs);
    && (match c.en
        case Outside(p, m, _) => pos == p && mid == m
        case Here(m) => pos == |code| && Get(mid, reg) == v && Same(c.fr, reg, m, mid))
    && Framed(c, code) && Runs(code, c.p0)
    && forall j :: c.p0 <= j < |code| ==>
         && (code[j] == Jmp(PENDING) ==> j in c.out)
         && (code[j].Jmp? && code[j].dest != PENDING ==> j < code[j].dest <= |code|)
         && (code[j].TestSet? && code[j].a == NO_REG ==> j + 1 in c.out)
  }

  lemma InRegDelivered(c: Ctx, fs: Func, reg: int, res: Leave)
    requires InReg(c, fs, [], [], reg, res)
    ensures Delivered(c, fs, reg, Final(res))
  {
    var code := View(fs);
    forall j | c.p0 <= j < |code|
      ensures code[j] == Jmp(PENDING) ==> j in c.out
      ensures code[j].Jmp? && code[j].dest != PENDING ==> j < code[j].dest <= |code|
      ensures code[j].TestSet? && code[j].a == NO_REG ==> j + 1 in c.out
    {
      assert WellPlaced(code, j) && Onward(code, j);
      assert Pending(code, j) ==> j in c.out;
      assert Blank(code, j + 1) ==> j + 1 in c.out;
    }
  }

  /** An expression computed into the next free register (an argument, an operand, the value of a new local). */
  lemma ExpressionToNextReg(c: Ctx, fs: Func, x: Expr, h: Hold)
    requires Starts(c, fs, h) && Scoped(x, fs.nactvar)
    ensures var (fs1, e1) := Compile(fs, x);
            var (fs2, e2) := Exp2NextReg(fs1, e1);
            && e2 == Exp(VNonReloc(c.fr), [], []) && fs2.freereg == c.fr + 1
            && Delivered(c, fs2, c.fr, Final(Act(c.env, x, Locals(c), h)))
  {
    hide Starts, InReg, Delivered, Exp2NextReg, Shape, Sound;
    CompileMeans(c, fs, x, h);
    var (fs1, e1) := Compile(fs, x);
    var r := Act(c.env, x, Locals(c), h);
    EndRegister(fs1, e1, EndOf(x));
    Exp2NextRegMeans(c, fs1, e1, r);
    InRegDelivered(c, Exp2NextReg(fs1, e1).0, c.fr, AtEnd(Final(r), Free));
    StartsNactvar(c, fs, h);
  }

  lemma EndRegister(fs: Func, e: Exp, k: End)
    requires Fits(fs, e, k)
    ensures e.k.VNonReloc? ==> e.k.r < fs.nactvar
  {
  }

  /** `local = expression`: the value goes straight into the variable's register. */
  lemma ExpressionToLocal(c: Ctx, fs: Func, x: Expr, h: Hold, r: nat)
    requires Starts(c, fs, h) && Scoped(x, fs.nactvar) && r < fs.nactvar
    ensures var (fs1, e1) := Compile(fs, x);
            Delivered(c, Exp2Reg(FreeExp(fs1, e1), e1, r).0, r, Final(Act(c.env, x, Locals(c), h)))
  {
    hide Starts, InReg, Delivered, Exp2Reg, Shape, Sound;
    CompileMeans(c, fs, x, h);
    var (fs1, e1) := Compile(fs, x);
    var res := Act(c.env, x, Locals(c), h);
    FreeExpSound(c, fs1, e1, res);
    Exp2RegPlaced(c, FreeExp(fs1, e1), e1, r, res);
    InRegDelivered(c, Exp2Reg(FreeExp(fs1, e1), e1, r).0, r, AtEnd(Final(res), Free));
  }

  lemma FreeExpSound(c: Ctx, fs: Func, e: Exp, res: Leave)
    requires Means(c, fs, e, res)
    ensures Shape(c, FreeExp(fs, e), e) && Sound(c, FreeExp(fs, e), e, res)
  {
    assert View(FreeExp(fs, e)) == View(fs);
  }

  /** The run that enters an expression at its first instruction; the code before may hold anything well-formed. */
  function Entered(env: Env, fs: Func, regs: Regs): Ctx {
    Ctx(env, |fs.code|, regs, fs, [], Here(regs), fs.freereg)
  }

  lemma EnteredStarts(env: Env, fs: Func, regs: Regs)
    requires FuncOK(fs) && fs.nactvar <= fs.freereg
    ensures Starts(Entered(env, fs, regs), fs, Free)
  {
    var c := Entered(env, fs, regs);
    ViewOK(fs);
    HereAimed(fs);
    ViewRuns(fs, c.p0);
    forall i | 0 <= i < |fs.code| && i !in fs.jpc && i + 1 !in fs.jpc ensures View(fs)[i] == fs.code[i] {
      assert View(fs)[i] == PatchedAt(fs.code, fs.jpc, |fs.code|, NO_REG, |fs.code|, i);
    }
    assert forall j :: j in fs.jpc ==> Pending(fs.code, j);
    forall j | c.p0 < j ensures !Blank(View(fs), j) {
    }
  }

  /** The value left in its register by the code of an expression, entered at its first instruction. */
  function Left(env: Env, fs: Func, x: Expr, regs: Regs): Value {
    var (fs1, e1) := Compile(fs, x);
    Get(Exec(env, View(Exp2NextReg(fs1, e1).0), |fs.code|, regs).1, fs.freereg)
  }

  lemma LeftIs(env: Env, fs: Func, x: Expr, regs: Regs)
    requires FuncOK(fs) && Scoped(x, fs.nactvar) && fs.nactvar <= fs.freereg
    ensures Left(env, fs, x, regs) == Computed(env, x, regs)
  {
    hide Starts, Act;
    EnteredStarts(env, fs, regs);
    ExpressionToNextReg(Entered(env, fs, regs), fs, x, Free);
  }
}
