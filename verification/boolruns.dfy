/** Runs of code whose patch lists are being resolved (lcode.cc, lvm.cc). */
module BoolRuns {
  import opened BoolVm
  import opened BoolCode

  // ---- patching a list and running the result

  predicate Pending(code: seq<Instr>, j: int) { 0 <= j < |code| && code[j] == Jmp(PENDING) }

  /** Every position is a jump nobody has aimed yet, and a value-carrying test has no destination register. */
  predicate Waiting(code: seq<Instr>, list: seq<int>) {
    forall j :: j in list ==> Pending(code, j) && (Carries(code, j) ==> code[j - 1].a == NO_REG)
  }

  function Target(code: seq<Instr>, vtarget: int, dtarget: int, j: int): int {
    if Carries(code, j) then vtarget else dtarget
  }

  function Written(code: seq<Instr>, reg: int, j: int, regs: Regs): Regs {
    if Carries(code, j) && reg != NO_REG && reg != code[j - 1].b then regs[reg := Get(regs, code[j - 1].b)] else regs
  }

  predicate Aimed(code: seq<Instr>, list: seq<int>, vtarget: int, dtarget: int) {
    forall j :: j in list ==> j < Target(code, vtarget, dtarget, j) && Landing(code, Target(code, vtarget, dtarget, j))
  }

  lemma PatchWellFormed(code: seq<Instr>, list: seq<int>, vtarget: int, reg: int, dtarget: int)
    requires WellFormed(code) && Waiting(code, list) && Aimed(code, list, vtarget, dtarget)
    ensures WellFormed(Patch(code, list, vtarget, reg, dtarget))
  {
    var patched := Patch(code, list, vtarget, reg, dtarget);
    forall i | 0 <= i < |code| ensures WellPlaced(patched, i) {
      assert WellPlaced(code, i);
      assert i + 1 < |code| ==> patched[i + 1] == PatchedAt(code, list, vtarget, reg, dtarget, i + 1);
      if patched[i].Jmp? && patched[i].dest != PENDING {
        var d := patched[i].dest;
        assert Landing(code, d);
      }
    }
  }

  ghost predicate Resumes(env: Env, code: seq<Instr>, list: seq<int>, vtarget: int, reg: int, dtarget: int,
                          i: int, regs: Regs)
  {
    var patched := Patch(code, list, vtarget, reg, dtarget);
    var (pos, mid) := Exec(env, code, i, regs);
    Exec(env, patched, i, regs) ==
    if pos in list
    then Exec(env, patched, Target(code, vtarget, dtarget, pos), Written(code, reg, pos, mid))
    else (pos, mid)
  }

  /** The test whose jump is patched: the store it now makes is the one `Written` describes. */
  lemma ExecPatchedTest(env: Env, code: seq<Instr>, list: seq<int>, vtarget: int, reg: int, dtarget: int,
                        i: int, regs: Regs)
    requires Runs(code, i) && Waiting(code, list) && Aimed(code, list, vtarget, dtarget)
    requires i < |code| && IsTest(code[i]) && i + 1 in list
    requires Step(env, code[i], i, regs).0 == i + 1
    ensures Resumes(env, code, list, vtarget, reg, dtarget, i, regs)
  {
    var patched := Patch(code, list, vtarget, reg, dtarget);
    assert WellPlaced(code, i);
    assert patched[i] == PatchedAt(code, list, vtarget, reg, dtarget, i);
    assert patched[i + 1] == PatchedAt(code, list, vtarget, reg, dtarget, i + 1);
    var (n, next) := Step(env, code[i], i, regs);
    assert Exec(env, code, i, regs) == Exec(env, code, i + 1, next) == (i + 1, next);
    assert Step(env, patched[i], i, regs) == (i + 1, Written(code, reg, i + 1, next));
  }

  /** A patched list: the run goes on from the target, with the value stored when the test carries one. */
  lemma {:induction false} ExecPatch(env: Env, code: seq<Instr>, list: seq<int>, vtarget: int, reg: int, dtarget: int,
                                     i: int, regs: Regs)
    requires Runs(code, i) && Waiting(code, list) && Aimed(code, list, vtarget, dtarget)
    ensures Resumes(env, code, list, vtarget, reg, dtarget, i, regs)
    decreases |code| - i
  {
    var patched := Patch(code, list, vtarget, reg, dtarget);
    if i == |code| || code[i] == Jmp(PENDING) {
      assert i < |code| ==> patched[i] == PatchedAt(code, list, vtarget, reg, dtarget, i);
      if i in list {
        assert !Carries(code, i);
        assert patched[i] == Jmp(dtarget);
      }
    } else {
      assert WellPlaced(code, i) && Onward(code, i);
      assert patched[i] == PatchedAt(code, list, vtarget, reg, dtarget, i);
      var (n, next) := Step(env, code[i], i, regs);
      if IsTest(code[i]) && n == i + 1 && i + 1 in list {
        ExecPatchedTest(env, code, list, vtarget, reg, dtarget, i, regs);
      } else {
        assert i !in list;
        assert Step(env, patched[i], i, regs) == (n, next);
        assert Exec(env, patched, i, regs) == Exec(env, patched, n, next);
        if IsTest(code[i]) && n == i + 1 {
          assert patched[n] == PatchedAt(code, list, vtarget, reg, dtarget, n) == code[n];
          if code[n] != Jmp(PENDING) {
            assert WellPlaced(code, n) && Onward(code, n);
            ExecPatch(env, code, list, vtarget, reg, dtarget, code[n].dest, next);
            assert Exec(env, code, n, next) == Exec(env, code, code[n].dest, next);
            assert Exec(env, patched, n, next) == Exec(env, patched, code[n].dest, next);
          }
        } else {
          ExecPatch(env, code, list, vtarget, reg, dtarget, n, next);
        }
      }
    }
  }

  predicate Blank(code: seq<Instr>, j: int) { Carries(code, j) && code[j - 1].a == NO_REG }

  lemma PatchRuns(code: seq<Instr>, list: seq<int>, vtarget: int, reg: int, dtarget: int, p0: int)
    requires Runs(code, p0) && Waiting(code, list) && Aimed(code, list, vtarget, dtarget)
    ensures Runs(Patch(code, list, vtarget, reg, dtarget), p0)
  {
    var patched := Patch(code, list, vtarget, reg, dtarget);
    PatchWellFormed(code, list, vtarget, reg, dtarget);
    forall i | p0 <= i < |code| ensures Onward(patched, i) {
      assert Onward(code, i);
      assert patched[i] == PatchedAt(code, list, vtarget, reg, dtarget, i);
    }
  }

  predicate FuncOK(fs: Func) { WellFormed(fs.code) && Waiting(fs.code, fs.jpc) }

  lemma HereAimed(fs: Func)
    requires FuncOK(fs)
    ensures Aimed(fs.code, fs.jpc, |fs.code|, |fs.code|) && Landing(fs.code, |fs.code|)
  {
    if fs.code != [] {
      assert WellPlaced(fs.code, |fs.code| - 1);
    }
  }

  lemma ViewOK(fs: Func)
    requires FuncOK(fs)
    ensures WellFormed(View(fs))
    ensures fs.jpc == [] ==> View(fs) == fs.code
  {
    HereAimed(fs);
    PatchWellFormed(fs.code, fs.jpc, |fs.code|, NO_REG, |fs.code|);
  }

  /** Raw and resolved code run forward from the same positions. */
  lemma ViewRuns(fs: Func, p0: int)
    requires FuncOK(fs)
    ensures Runs(View(fs), p0) <==> Runs(fs.code, p0)
  {
    HereAimed(fs);
    if Runs(fs.code, p0) {
      PatchRuns(fs.code, fs.jpc, |fs.code|, NO_REG, |fs.code|, p0);
    }
    if Runs(View(fs), p0) {
      forall i | p0 <= i < |fs.code| ensures Onward(fs.code, i) {
        assert Onward(View(fs), i);
        assert View(fs)[i] == PatchedAt(fs.code, fs.jpc, |fs.code|, NO_REG, |fs.code|, i);
      }
      if p0 > 0 {
        assert View(fs)[p0 - 1] == PatchedAt(fs.code, fs.jpc, |fs.code|, NO_REG, |fs.code|, p0 - 1);
      }
    }
  }

  /** Runs of the raw code and of the code whose current-position jumps are resolved. */
  lemma ExecView(env: Env, fs: Func, p0: int, regs: Regs)
    requires FuncOK(fs) && Runs(fs.code, p0)
    ensures var (pos, mid) := Exec(env, fs.code, p0, regs);
            Exec(env, View(fs), p0, regs) == if pos in fs.jpc then (|fs.code|, mid) else (pos, mid)
  {
    HereAimed(fs);
    ExecPatch(env, fs.code, fs.jpc, |fs.code|, NO_REG, |fs.code|, p0, regs);
  }

  /** The exit lists of the resolved code wait in the raw code too, apart from the current-position list. */
  lemma RawLists(fs: Func, list: seq<int>)
    requires FuncOK(fs) && Waiting(View(fs), list)
    ensures Waiting(fs.code, list)
    ensures forall j :: j in list ==> j !in fs.jpc && Carries(fs.code, j) == Carries(View(fs), j)
    ensures forall j :: j in list && Carries(fs.code, j) ==> View(fs)[j - 1] == fs.code[j - 1]
  {
    var view := View(fs);
    forall j | j in list
      ensures Pending(fs.code, j) && j !in fs.jpc && Carries(fs.code, j) == Carries(view, j)
      ensures Carries(fs.code, j) ==> view[j - 1] == fs.code[j - 1]
    {
      assert view[j] == PatchedAt(fs.code, fs.jpc, |fs.code|, NO_REG, |fs.code|, j);
      if j > 0 {
        assert view[j - 1] == PatchedAt(fs.code, fs.jpc, |fs.code|, NO_REG, |fs.code|, j - 1);
      }
    }
  }

  // ---- adding instructions

  predicate Plain(ins: Instr) {
    ins.Move? || ins.LoadK? || (ins.LoadBool? && !ins.skip) || ins.GetGlobal? || ins.Not?
  }

  lemma AppendWellFormed(code: seq<Instr>, ins: Instr)
    requires WellFormed(code) && Plain(ins)
    ensures WellFormed(code + [ins])
  {
    forall i | 0 <= i < |code + [ins]| ensures WellPlaced(code + [ins], i) {
      if i < |code| {
        assert WellPlaced(code, i);
      }
    }
  }

  lemma AppendRuns(code: seq<Instr>, ins: Instr, p0: int)
    requires Runs(code, p0) && Plain(ins)
    ensures Runs(code + [ins], p0)
  {
    AppendWellFormed(code, ins);
    forall i | p0 <= i < |code| + 1 ensures Onward(code + [ins], i) {
      assert i < |code| ==> Onward(code, i);
    }
  }

  lemma EmitView(fs: Func, ins: Instr)
    requires FuncOK(fs)
    ensures Emit(fs, ins).code == View(Emit(fs, ins)) == View(fs) + [ins]
    ensures Plain(ins) ==> FuncOK(Emit(fs, ins))
  {
    ViewOK(fs);
    if Plain(ins) {
      AppendWellFormed(View(fs), ins);
    }
  }

  function Loads(env: Env, ins: Instr, regs: Regs): Value {
    match ins
    case Move(_, b) => Get(regs, b)
    case LoadK(_, v) => v
    case LoadBool(_, b, _) => Bool(b)
    case GetGlobal(_, g) => env.global(g)
    case Not(_, b) => Bool(IsFalse(Get(regs, b)))
    case _ => Nil
  }

  lemma ExecAppend(env: Env, code: seq<Instr>, p0: int, ins: Instr, regs: Regs)
    requires Runs(code, p0) && Plain(ins)
    ensures var (pos, mid) := Exec(env, code, p0, regs);
            Exec(env, code + [ins], p0, regs) ==
            if pos == |code| then (|code| + 1, mid[ins.a := Loads(env, ins, mid)]) else (pos, mid)
  {
    var whole := code + [ins];
    ExecPrefix(env, code, whole, p0, regs);
    var (pos, mid) := Exec(env, code, p0, regs);
    if pos == |code| {
      var (n, next) := Step(env, whole[pos], pos, mid);
      assert Exec(env, whole, pos, mid) == Exec(env, whole, n, next) == (n, next);
    }
  }

  predicate Unset(test: Instr) { IsTest(test) && (test.TestSet? ==> test.a == NO_REG) }

  lemma AppendTestRuns(code: seq<Instr>, test: Instr, p0: int)
    requires Runs(code, p0) && IsTest(test)
    ensures Runs(code + [test, Jmp(PENDING)], p0)
  {
    var whole := code + [test, Jmp(PENDING)];
    forall i | 0 <= i < |whole| ensures WellPlaced(whole, i) {
      if i < |code| {
        assert WellPlaced(code, i);
      }
    }
    forall i | p0 <= i < |whole| ensures Onward(whole, i) {
      assert i < |code| ==> Onward(code, i);
    }
  }

  lemma ExecTest(env: Env, code: seq<Instr>, p0: int, test: Instr, regs: Regs)
    requires Runs(code, p0) && Unset(test)
    ensures var (pos, mid) := Exec(env, code, p0, regs);
            Exec(env, code + [test, Jmp(PENDING)], p0, regs) ==
            if pos == |code| then (Step(env, test, pos, mid).0, mid) else (pos, mid)
  {
    var whole := code + [test, Jmp(PENDING)];
    ExecPrefix(env, code, whole, p0, regs);
    var (pos, mid) := Exec(env, code, p0, regs);
    if pos == |code| {
      var (n, next) := Step(env, test, pos, mid);
      assert Exec(env, whole, pos, mid) == Exec(env, whole, n, next) == (n, mid);
    }
  }

  lemma CondJumpIs(fs: Func, ins: Instr)
    requires FuncOK(fs)
    ensures var fs1 := fs.(code := View(fs) + [ins, Jmp(PENDING)], jpc := []);
            CondJump(fs, ins) == (fs1, [|fs.code| + 1]) && View(fs1) == fs1.code
  {
    EmitView(fs, ins);
    var fs1 := fs.(code := View(fs) + [ins, Jmp(PENDING)], jpc := []);
    assert Emit(fs, ins).code + [Jmp(PENDING)] == fs1.code;
    assert [|fs.code| + 1] + [] == [|fs.code| + 1];
    assert View(fs1) == fs1.code;
  }

  lemma AppendJumpRuns(code: seq<Instr>, p0: int)
    requires Runs(code, p0)
    ensures Runs(code + [Jmp(PENDING)], p0) && !Carries(code + [Jmp(PENDING)], |code|)
  {
    var whole := code + [Jmp(PENDING)];
    forall i | 0 <= i < |whole| ensures WellPlaced(whole, i) {
      assert i < |code| ==> WellPlaced(code, i);
    }
    forall i | p0 <= i < |whole| ensures Onward(whole, i) {
      assert i < |code| ==> Onward(code, i);
    }
    if code != [] {
      assert WellPlaced(code, |code| - 1);
    }
  }

  function CoreEnd(code: seq<Instr>, k: Kind): int {
    if k.VReloc? then |code| - 1 else if k.VJmp? then |code| - 2 else |code|
  }

  /** The instructions that stand for the value itself: the one still without a register, or a comparison. */
  predicate Tail(code: seq<Instr>, k: Kind) {
    match k
    case VReloc(pc) => 0 <= pc == |code| - 1 && (code[pc].GetGlobal? || code[pc].Not?)
    case VJmp(pc) => 1 <= pc == |code| - 1 && code[pc] == Jmp(PENDING) && code[pc - 1].Compare?
    case _ => true
  }

  function CoreOf(fs: Func, k: Kind): seq<Instr>
    requires Tail(View(fs), k)
  {
    View(fs)[..CoreEnd(View(fs), k)]
  }

  predicate Yields(env: Env, code: seq<Instr>, k: Kind, regs: Regs, v: Value)
    requires Tail(code, k)
  {
    match k
    case VTrue => v == Bool(true)
    case VFalse => v == Bool(false)
    case VK(c) => v == c && !IsFalse(c)
    case VLocal(r) => Get(regs, r) == v
    case VNonReloc(r) => Get(regs, r) == v
    case VGlobal(g) => v == env.global(g)
    case VReloc(pc) => v == Loads(env, code[pc], regs)
    case VJmp(pc) =>
      var c := code[pc - 1];
      v == Bool(env.holds(c.op, GetRK(regs, c.rb), GetRK(regs, c.rc)) == c.cond)
  }

  lemma PatchToHereIs(fs: Func, list: seq<int>)
    requires FuncOK(fs) && Waiting(View(fs), list)
    ensures FuncOK(PatchToHere(fs, list))
    ensures View(PatchToHere(fs, list)) == Patch(View(fs), list, |fs.code|, NO_REG, |fs.code|)
  {
    RawLists(fs, list);
    var n := |fs.code|;
    var here := PatchToHere(fs, list);
    forall i | 0 <= i < n
      ensures View(here)[i] == Patch(View(fs), list, n, NO_REG, n)[i]
    {
      assert View(here)[i] == PatchedAt(fs.code, here.jpc, n, NO_REG, n, i);
      assert View(fs)[i] == PatchedAt(fs.code, fs.jpc, n, NO_REG, n, i);
      assert i > 0 ==> View(fs)[i - 1] == PatchedAt(fs.code, fs.jpc, n, NO_REG, n, i - 1);
    }
  }

  lemma DropLast(fs: Func, e: Exp)
    requires FuncOK(fs) && fs.jpc == [] && Tail(View(fs), e.k) && e.k.VReloc? && WellFormed(CoreOf(fs, e.k))
    ensures var fs1 := fs.(code := fs.code[..|fs.code| - 1]);
            View(fs) == fs.code && fs1.code == CoreOf(fs, e.k) == View(fs1) && FuncOK(fs1)
  {
    ViewOK(fs);
    var fs1 := fs.(code := fs.code[..|fs.code| - 1]);
    assert View(fs1) == fs1.code;
  }

  // ---- exits patched to a register

  /** A pair of boolean loads at the end of the code, entered at `lab`. */
  predicate LabelOK(code: seq<Instr>, lab: int, reg: int, sense: bool) {
    && 0 <= lab < |code|
    && Landing(code, lab)
    && code[lab] == LoadBool(reg, sense, !sense)
    && lab + (if sense then 1 else 2) == |code|
  }

  predicate ExitsOK(code: seq<Instr>, list: seq<int>, reg: int, sense: bool, lab: int) {
    && Waiting(code, list)
    && forall j :: j in list ==> Carries(code, j) || (j < lab && LabelOK(code, lab, reg, sense))
  }

  function Stored(code: seq<Instr>, j: int, reg: int, sense: bool, mid: Regs): Regs {
    if Carries(code, j) then Written(code, reg, j, mid) else mid[reg := Bool(sense)]
  }

  /** Patching one exit list: every exit now arrives at the end with its value in the register. */
  lemma PatchExitList(env: Env, code: seq<Instr>, list: seq<int>, reg: int, sense: bool, lab: int, p0: int, regs: Regs)
    requires Runs(code, p0) && ExitsOK(code, list, reg, sense, lab) && reg != NO_REG
    ensures var patched := Patch(code, list, |code|, reg, lab);
            var (pos, mid) := Exec(env, code, p0, regs);
            && Runs(patched, p0)
            && Exec(env, patched, p0, regs) ==
               if pos in list then (|code|, Stored(code, pos, reg, sense, mid)) else (pos, mid)
  {
    var patched := Patch(code, list, |code|, reg, lab);
    forall j | j in list
      ensures j < Target(code, |code|, lab, j) && Landing(code, Target(code, |code|, lab, j))
    {
      assert WellPlaced(code, |code| - 1);
    }
    PatchRuns(code, list, |code|, reg, lab, p0);
    ExecPatch(env, code, list, |code|, reg, lab, p0, regs);
    var (pos, mid) := Exec(env, code, p0, regs);
    if pos in list && !Carries(code, pos) {
      assert patched[lab] == PatchedAt(code, list, |code|, reg, lab, lab) == code[lab];
      var (n, next) := Step(env, patched[lab], lab, mid);
      assert Exec(env, patched, lab, mid) == Exec(env, patched, n, next) == (|code|, next);
    }
  }

  /** Patching one list leaves the others waiting, and every boolean load where it is. */
  lemma PatchKeeps(code: seq<Instr>, list: seq<int>, reg: int, lab: int, other: seq<int>)
    requires Waiting(code, list) && Waiting(code, other) && forall j :: j in other ==> j !in list
    ensures var patched := Patch(code, list, |code|, reg, lab);
            && Waiting(patched, other)
            && (forall j :: j in other ==> Carries(patched, j) == Carries(code, j) &&
                                           (Carries(code, j) ==> patched[j - 1] == code[j - 1]))
            && (forall i :: 0 <= i < |code| && code[i].LoadBool? ==> patched[i] == code[i])
            && (forall i :: 0 <= i <= |code| && Landing(code, i) ==> Landing(patched, i))
  {
    var patched := Patch(code, list, |code|, reg, lab);
    assert forall i :: 0 <= i < |code| ==> patched[i] == PatchedAt(code, list, |code|, reg, lab, i);
  }

  lemma LoadLabelsIs(fs: Func, reg: int, isJump: bool)
    requires isJump ==> fs.jpc == []
    ensures var loads := [LoadBool(reg, false, true), LoadBool(reg, true, false)];
            LoadLabels(fs, reg, isJump) ==
            if isJump then (fs.(code := fs.code + loads, jpc := []), |fs.code|, |fs.code| + 1)
            else (fs.(code := fs.code + [Jmp(PENDING)] + loads, jpc := [|fs.code|] + fs.jpc),
                  |fs.code| + 1, |fs.code| + 2)
  {
    var loads := [LoadBool(reg, false, true), LoadBool(reg, true, false)];
    var fs1 := if isJump then fs else Jump(fs).0;
    assert View(fs1) == fs1.code;
    var two := Emit(fs1, loads[0]);
    assert View(two) == two.code;
    var three := Emit(two, loads[1]);
    assert three.code == fs1.code + loads;
    var fj := if isJump then [] else Jump(fs).1;
    assert three.jpc + fj == fj;
  }

  // ---- values removed

  function Strip(code: seq<Instr>, t: seq<int>, f: seq<int>): (r: seq<Instr>)
    ensures |r| == |code|
  {
    RemoveValues(RemoveValues(code, t), f)
  }

  function StripAt(code: seq<Instr>, t: seq<int>, f: seq<int>, i: int): Instr
    requires 0 <= i < |code|
  {
    if (i + 1 in t || i + 1 in f) && code[i].TestSet? then Test(code[i].b, code[i].c) else code[i]
  }

  lemma StripIs(code: seq<Instr>, t: seq<int>, f: seq<int>)
    ensures forall i :: 0 <= i < |code| ==> Strip(code, t, f)[i] == StripAt(code, t, f, i)
  {
    forall i | 0 <= i < |code| ensures Strip(code, t, f)[i] == StripAt(code, t, f, i) {
      assert RemoveValues(code, t)[i] == StrippedAt(code, t, i);
    }
  }

  lemma StripWellFormed(code: seq<Instr>, t: seq<int>, f: seq<int>)
    requires WellFormed(code)
    ensures WellFormed(Strip(code, t, f))
  {
    StripIs(code, t, f);
    var stripped := Strip(code, t, f);
    forall i | 0 <= i < |code| ensures WellPlaced(stripped, i) {
      assert WellPlaced(code, i);
      assert stripped[i] == StripAt(code, t, f, i);
      if stripped[i].Jmp? && stripped[i].dest != PENDING && stripped[i].dest > 0 {
        assert stripped[stripped[i].dest - 1] == StripAt(code, t, f, stripped[i].dest - 1);
      }
      assert i + 1 < |code| ==> stripped[i + 1] == StripAt(code, t, f, i + 1);
    }
  }

  lemma StripRuns(code: seq<Instr>, t: seq<int>, f: seq<int>, p0: int)
    requires Runs(code, p0)
    ensures Runs(Strip(code, t, f), p0)
  {
    StripIs(code, t, f);
    StripWellFormed(code, t, f);
    var stripped := Strip(code, t, f);
    forall i | p0 <= i < |code| ensures Onward(stripped, i) {
      assert Onward(code, i);
      assert stripped[i] == StripAt(code, t, f, i);
    }
    if p0 > 0 {
      assert stripped[p0 - 1] == StripAt(code, t, f, p0 - 1);
    }
  }

  /** A test without a destination register does what the plain test does. */
  lemma {:induction false} ExecStrip(env: Env, code: seq<Instr>, t: seq<int>, f: seq<int>, i: int, regs: Regs)
    requires Waiting(code, t) && Waiting(code, f) && 0 <= i
    ensures Exec(env, Strip(code, t, f), i, regs) == Exec(env, code, i, regs)
    decreases |code| - i
  {
    StripIs(code, t, f);
    if i < |code| && code[i] != Jmp(PENDING) {
      assert Strip(code, t, f)[i] == StripAt(code, t, f, i);
      assert i + 1 in t || i + 1 in f ==> (code[i].TestSet? ==> Carries(code, i + 1));
      var (n, next) := Step(env, code[i], i, regs);
      assert Step(env, StripAt(code, t, f, i), i, regs) == (n, next);
      if n > i {
        ExecStrip(env, code, t, f, n, next);
      }
    }
  }

  /** Stripping the raw code strips what is seen once current-position jumps are resolved. */
  lemma StripView(fs: Func, t: seq<int>, f: seq<int>)
    requires FuncOK(fs) && Waiting(View(fs), t) && Waiting(View(fs), f)
    ensures var fs1 := fs.(code := Strip(fs.code, t, f));
            FuncOK(fs1) && View(fs1) == Strip(View(fs), t, f)
  {
    var fs1 := fs.(code := Strip(fs.code, t, f));
    var n := |fs.code|;
    StripWellFormed(fs.code, t, f);
    StripIs(fs.code, t, f);
    StripIs(View(fs), t, f);
    RawLists(fs, t);
    RawLists(fs, f);
    forall j | j in fs.jpc
      ensures Pending(fs1.code, j) && (Carries(fs1.code, j) ==> fs1.code[j - 1].a == NO_REG)
    {
      assert fs1.code[j] == StripAt(fs.code, t, f, j);
      assert j > 0 ==> fs1.code[j - 1] == StripAt(fs.code, t, f, j - 1);
    }
    forall i | 0 <= i < n ensures View(fs1)[i] == Strip(View(fs), t, f)[i] {
      assert View(fs)[i] == PatchedAt(fs.code, fs.jpc, n, NO_REG, n, i);
      assert View(fs1)[i] == PatchedAt(fs1.code, fs.jpc, n, NO_REG, n, i);
      assert Strip(View(fs), t, f)[i] == StripAt(View(fs), t, f, i);
      assert fs1.code[i] == StripAt(fs.code, t, f, i);
      assert i > 0 ==> fs1.code[i - 1] == StripAt(fs.code, t, f, i - 1);
    }
  }

  lemma StripPrefix(code: seq<Instr>, t: seq<int>, f: seq<int>, n: int)
    requires 0 <= n <= |code|
    ensures Strip(code, t, f)[..n] == Strip(code[..n], t, f)
  {
    StripIs(code, t, f);
    StripIs(code[..n], t, f);
    forall i | 0 <= i < n ensures Strip(code, t, f)[i] == Strip(code[..n], t, f)[i] {
      assert Strip(code, t, f)[i] == StripAt(code, t, f, i);
      assert Strip(code[..n], t, f)[i] == StripAt(code[..n], t, f, i);
    }
  }

  lemma ExchangeTail(view: seq<Instr>, e: Exp)
    requires Tail(view, e.k)
    ensures Tail(Strip(view, e.t, e.f), e.k)
    ensures e.k.VReloc? ==> Strip(view, e.t, e.f)[e.k.pc] == view[e.k.pc]
    ensures e.k.VJmp? ==> Strip(view, e.t, e.f)[e.k.pc - 1] == view[e.k.pc - 1]
  {
    StripIs(view, e.t, e.f);
    if e.k.VReloc? {
      assert Strip(view, e.t, e.f)[e.k.pc] == StripAt(view, e.t, e.f, e.k.pc);
    } else if e.k.VJmp? {
      assert Strip(view, e.t, e.f)[e.k.pc] == StripAt(view, e.t, e.f, e.k.pc);
      assert Strip(view, e.t, e.f)[e.k.pc - 1] == StripAt(view, e.t, e.f, e.k.pc - 1);
    }
  }
}
