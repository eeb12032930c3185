/** The interpreter loop over finished code (lvm.cc). */
module BoolExec {
  import opened BoolVm
  import opened BoolCode
  import opened BoolThreads
  import opened BoolRuns
  import opened BoolAct
  import BoolSound
  import BoolRight
  import opened BoolTrace
  import opened BoolNeat
  import opened BoolPatch

  function Taken(env: Env, ins: Instr, regs: Regs): bool
    requires IsTest(ins)
  {
    match ins
    case Compare(op, cond, b, c) => env.holds(op, GetRK(regs, b), GetRK(regs, c)) == cond
    case Test(a, c) => IsFalse(Get(regs, a)) != c
    case TestSet(_, b, c) => IsFalse(Get(regs, b)) != c
  }

  /** The run from `start` is at `pc` with these registers, and has performed `heard`. */
  ghost predicate Follows(env: Env, model: seq<Instr>, start: int, regs: Regs, pc: int, last: Regs, heard: seq<Event>) {
    && Exec(env, model, start, regs) == Exec(env, model, pc, last)
    && Trace(env, model, start, regs) == heard + Trace(env, model, pc, last)
  }

  lemma FollowsTrans(env: Env, model: seq<Instr>, a: int, r: Regs, b: int, r1: Regs, one: seq<Event>, d: int, r2: Regs,
          two: seq<Event>)
    requires Follows(env, model, a, r, b, r1, one) && Follows(env, model, b, r1, d, r2, two)
    ensures Follows(env, model, a, r, d, r2, one + two)
  {
    hide Exec, Trace;
  }

  lemma FollowsStart(env: Env, model: seq<Instr>, at: int, regs: Regs)
    ensures Follows(env, model, at, regs, at, regs, [])
  {
  }

  lemma FollowsEnd(env: Env, model: seq<Instr>, at: int, regs: Regs, last: Regs, heard: seq<Event>)
    requires Follows(env, model, at, regs, |model|, last, heard)
    ensures Exec(env, model, at, regs) == (|model|, last) && Trace(env, model, at, regs) == heard
  {
  }

  lemma FollowsStep(env: Env, model: seq<Instr>, at: int, regs: Regs)
    requires 0 <= at < |model| && model[at] != Jmp(PENDING) && Step(env, model[at], at, regs).0 > at
    ensures var (n, next) := Step(env, model[at], at, regs);
            Follows(env, model, at, regs, n, next, Events(env, model[at], regs))
  {
  }

  /** A test and the jump behind it, which a test that succeeds performs at once. */
  method ExecuteTest(env: Env, code: seq<Instr>, at: int, regs: Regs, ghost model: seq<Instr>)
    returns (pc: int, last: Regs, ghost heard: seq<Event>)
    requires Aligned(code, model) && Runs(model, at) && at < |code| && IsTest(code[at])
    requires forall i :: at <= i < |model| ==> model[i] != Jmp(PENDING)
    ensures at < pc <= |code| && Runs(model, pc) && Follows(env, model, at, regs, pc, last, heard)
  {
    hide Aligned, WellFormed, Landing, Follows, Runs;
    RunsOK(model, at);
    PlacedAt(code, model, at);
    PlacedAt(code, model, at + 1);
    TestStep(env, model, at, regs);
    pc, last := at + 1, regs;
    heard := Events(env, code[at], regs);
    if Taken(env, code[at], regs) {
      if code[at].TestSet? && code[at].a != NO_REG {
        last := last[code[at].a := Get(last, code[at].b)];
      }
      pc := pc + code[pc].dest;
    }
    pc := pc + 1;
  }

  lemma RunsOK(model: seq<Instr>, at: int)
    requires Runs(model, at)
    ensures WellFormed(model) && 0 <= at <= |model|
  {
  }

  lemma PlacedAt(code: seq<Instr>, model: seq<Instr>, i: int)
    requires Aligned(code, model) && WellFormed(model) && 0 <= i < |code|
    ensures |code| == |model| && AlignedAt(code, model, i) && WellPlaced(model, i)
  {
  }

  lemma TestStep(env: Env, model: seq<Instr>, at: int, regs: Regs)
    requires Runs(model, at) && at < |model| && IsTest(model[at])
    requires forall i :: at <= i < |model| ==> model[i] != Jmp(PENDING)
    ensures at + 1 < |model| && model[at + 1].Jmp? && at + 1 < model[at + 1].dest <= |model|
    ensures var (n, next) := Step(env, model[at], at, regs);
            && (n == at + 1 || n == at + 2)
            && Runs(model, if n == at + 1 then model[at + 1].dest else n)
            && Follows(env, model, at, regs,
                       if n == at + 1 then model[at + 1].dest else n, next, Events(env, model[at], regs))
  {
    assert WellPlaced(model, at) && WellPlaced(model, at + 1) && Onward(model, at + 1);
    var (n, next) := Step(env, model[at], at, regs);
    FollowsStep(env, model, at, regs);
    if n == at + 1 {
      FollowsStep(env, model, n, next);
      FollowsTrans(env, model, at, regs, n, next, Events(env, model[at], regs), model[n].dest, next, []);
      assert Events(env, model[at], regs) + [] == Events(env, model[at], regs);
    }
  }

  lemma PlainStep(env: Env, model: seq<Instr>, at: int, regs: Regs)
    requires Runs(model, at) && at < |model| && !IsTest(model[at]) && model[at] != Jmp(PENDING)
    ensures var (n, next) := Step(env, model[at], at, regs);
            at < n <= |model| && Runs(model, n) && Follows(env, model, at, regs, n, next, Events(env, model[at], regs))
  {
    assert WellPlaced(model, at) && Onward(model, at);
    FollowsStep(env, model, at, regs);
  }

  /** Any other instruction. */
  method ExecutePlain(env: Env, i: Instr, at: int, regs: Regs, ghost model: seq<Instr>)
    returns (pc: int, last: Regs, ghost heard: seq<Event>)
    requires 0 <= at < |model| && !IsTest(i)
    requires i == if model[at].Jmp? then Jmp(model[at].dest - at - 1) else model[at]
    ensures (pc, last) == Step(env, model[at], at, regs) && heard == Events(env, model[at], regs)
  {
    heard := Events(env, i, regs);
    pc, last := at + 1, regs;
    match i {
      case Move(a, b) => last := last[a := Get(last, b)];
      case LoadK(a, v) => last := last[a := v];
      case LoadBool(a, b, skip) =>
        last := last[a := Bool(b)];
        if skip {
          pc := pc + 1;
        }
      case GetGlobal(a, g) => last := last[a := env.global(g)];
      case Not(a, b) => last := last[a := Bool(IsFalse(Get(last, b)))];
      case Jmp(d) => pc := pc + d;
    }
  }

  /** The loop of the virtual machine. It runs finished code, which holds offsets, exactly as `Exec` runs the model;
      `heard` are the reads of globals and the comparisons it performs. */
  method Execute(env: Env, code: seq<Instr>, start: int, regs: Regs, ghost model: seq<Instr>)
    returns (last: Regs, ghost heard: seq<Event>)
    requires Aligned(code, model) && Runs(model, start)
    requires forall i :: start <= i < |model| ==> model[i] != Jmp(PENDING)
    ensures Exec(env, model, start, regs) == (|code|, last) && heard == Trace(env, model, start, regs)
  {
    hide Aligned, WellFormed, Runs, Landing, Follows, Exec, Trace;
    SameLength(code, model);
    RunsOK(model, start);
    var pc := start;
    last := regs;
    heard := [];
    FollowsStart(env, model, start, regs);
    while pc < |code|
      invariant start <= pc <= |code| == |model| && Runs(model, pc)
      invariant Follows(env, model, start, regs, pc, last, heard)
      decreases |code| - pc
    {
      RunsOK(model, pc);
      PlacedAt(code, model, pc);
      ghost var at, before := pc, last;
      ghost var events;
      if IsTest(code[pc]) {
        pc, last, events := ExecuteTest(env, code, pc, last, model);
      } else {
        PlainStep(env, model, pc, last);
        pc, last, events := ExecutePlain(env, code[pc], pc, last, model);
      }
      FollowsTrans(env, model, start, regs, at, before, heard, pc, last, events);
      heard := heard + events;
    }
    FollowsEnd(env, model, start, regs, last, heard);
  }

  /** Generates `x` into the next register, behind the code so far, and resolves the jumps that wait behind it. */
  method Generate(s: FuncState, x: Expr, ghost c: BoolSound.Ctx, ghost fs: Func)
    requires s.Represents(fs) && BoolSound.Starts(c, fs, Free) && c.base == fs && Scoped(x, fs.nactvar)
    modifies s
    ensures var (fs1, e1) := BoolCode.Compile(fs, x); Aligned(s.code, View(BoolCode.Exp2NextReg(fs1, e1).0))
    ensures JumpsKept(old(s.code), s.code, fs.jpc)
  {
    hide Aligned, Threads, JumpsKept, Neat, BoolSound.Starts;
    SameLength(s.code, fs.code);
    CompiledNeat(c, fs, x, Free);
    var d := s.Compile(x, c, fs, Free);
    ghost var (fs1, e1) := BoolCode.Compile(fs, x);
    ghost var one := s.code;
    SameLength(one, fs1.code);
    KeptLonger(old(s.code), one, fs.jpc);
    d := s.Exp2NextReg(d, fs1, e1);
    ghost var fs2 := BoolCode.Exp2NextReg(fs1, e1).0;
    ghost var two := s.code;
    KeptTrans(old(s.code), one, two, fs.jpc, Mine(fs1, e1));
    s.DischargeHere(fs2);
    NextRegJpc(fs1, e1);
    KeptTrans(old(s.code), two, s.code, fs.jpc, fs2.jpc);
  }

  lemma KeptLonger(a: seq<Instr>, b: seq<Instr>, list: seq<int>)
    requires JumpsKept(a, b, list)
    ensures |a| <= |b|
  {
  }

  /** The whole way: code for `x` is generated behind the code so far, in place, and the machine runs it. What it leaves
      in the register is what `Computed` says; unless a literal takes over a carried value, that is the value of `x`,
      and the globals read and the comparisons made are those of short-circuit evaluation, in order. */
  method Evaluate(s: FuncState, env: Env, x: Expr, regs: Regs, ghost fs: Func)
    returns (v: Value, ghost heard: seq<Event>)
    requires s.Represents(fs) && FuncOK(fs) && Scoped(x, fs.nactvar) && fs.nactvar <= fs.freereg
    modifies s
    ensures v == Computed(env, x, regs) && heard == Performed(env, x, regs, Free)
    ensures BoolRight.Safe(x, false) ==> v == Eval(env, x, regs) && heard == Evaluation(env, x, regs)
    ensures JumpsKept(old(s.code), s.code, fs.jpc)
  {
    hide Aligned, JumpsKept, Runs, Act, BoolSound.Starts, BoolSound.Delivered, Trace, Performed;
    SameLength(s.code, fs.code);
    ghost var c := BoolSound.Entered(env, fs, regs);
    BoolSound.EnteredStarts(env, fs, regs);
    BoolSound.ExpressionToNextReg(c, fs, x, Free);
    var start, reg := |s.code|, s.freereg;
    Generate(s, x, c, fs);
    ghost var (fs1, e1) := BoolCode.Compile(fs, x);
    ghost var fs2 := BoolCode.Exp2NextReg(fs1, e1).0;
    SameLength(s.code, View(fs2));
    FinishedCode(c, fs2, fs.freereg, Computed(env, x, regs));
    var last;
    last, heard := Execute(env, s.code, start, regs, View(fs2));
    v := Get(last, reg);
    EvaluatesIs(env, fs, x, regs);
    assert heard == Evaluates(env, fs, x, regs);
    if BoolRight.Safe(x, false) {
      BoolRight.SafeGood(env, x, regs, fs.nactvar, Free, false);
      BoolRight.GoodFinal(Act(env, x, regs, Free), Eval(env, x, regs), BoolRight.May(x, false), EndOf(x));
      EvaluationOrder(env, fs, x, regs);
    }
  }

  lemma FinishedCode(c: BoolSound.Ctx, fs: Func, reg: int, v: Value)
    requires BoolSound.Delivered(c, fs, reg, v) && c.out == [] && c.en.Here?
    ensures Runs(View(fs), c.p0) && forall j :: c.p0 <= j < |View(fs)| ==> View(fs)[j] != Jmp(PENDING)
    ensures var (pos, mid) := Exec(c.env, View(fs), c.p0, c.regs); pos == |View(fs)| && Get(mid, reg) == v
  {
  }

  lemma NextRegJpc(fs: Func, e: Exp)
    requires Neat(fs, e)
    ensures forall j :: j in BoolCode.Exp2NextReg(fs, e).0.jpc ==> j in fs.jpc || j >= |fs.code|
  {
    DischargeNeat(fs, e);
    DischargedIs(fs, e);
    var (fs1, e1) := BoolCode.DischargeVars(fs, e);
    hide Neat, BoolCode.DischargeVars, BoolCode.Exp2Reg;
    NeatFreed(fs1, e1);
    var fs2 := BoolCode.ReserveRegs(BoolCode.FreeExp(fs1, e1), 1);
    SameNeat(BoolCode.FreeExp(fs1, e1), fs2, e1);
    Exp2RegNeat(fs2, e1, fs2.freereg - 1);
    assert BoolCode.Exp2NextReg(fs, e) == BoolCode.Exp2Reg(fs2, e1, fs2.freereg - 1);
  }
}
