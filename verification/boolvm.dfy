/** The part of the Lua virtual machine that boolean expressions use (lvm.cc). */
module BoolVm {

  datatype Value = Nil | Bool(b: bool) | Other(id: int)

  predicate IsFalse(v: Value) { v.Nil? || v == Bool(false) }

  datatype Relation = Equal | Less | LessEqual

  /** What the code reads besides its registers: the globals, and the three primitive comparisons. */
  datatype Env = Env(global: nat -> Value, holds: (Relation, Value, Value) -> bool)

  datatype RK = Reg(r: int) | Kst(v: Value)

  // The `A` operand of a TESTSET whose destination is not known yet. The source uses 255, a number no
  // register has because frames are limited to 250; registers are not limited here.
  const NO_REG: int := -1
  // The destination of a jump that still waits in a patch list.
  const PENDING: int := -1

  /** Jump destinations are absolute positions; the generator's in-place form holds offsets. */
  datatype Instr =
    | Move(a: int, b: int)
    | LoadK(a: int, v: Value)
    | LoadBool(a: int, truth: bool, skip: bool)
    | GetGlobal(a: int, g: nat)
    | Not(a: int, b: int)
    | Jmp(dest: int)
    | Compare(op: Relation, cond: bool, rb: RK, rc: RK)
    | Test(a: int, c: bool)
    | TestSet(a: int, b: int, c: bool)

  predicate IsTest(ins: Instr) { ins.Compare? || ins.Test? || ins.TestSet? }

  type Regs = map<int, Value>

  function Get(regs: Regs, r: int): Value { if r in regs then regs[r] else Nil }

  function GetRK(regs: Regs, x: RK): Value {
    match x
    case Reg(r) => Get(regs, r)
    case Kst(v) => v
  }

  /** One instruction. A test that succeeds moves to the jump behind it, otherwise it skips that jump. */
  function Step(env: Env, ins: Instr, i: int, regs: Regs): (int, Regs) {
    match ins
    case Move(a, b) => (i + 1, regs[a := Get(regs, b)])
    case LoadK(a, v) => (i + 1, regs[a := v])
    case LoadBool(a, b, skip) => (if skip then i + 2 else i + 1, regs[a := Bool(b)])
    case GetGlobal(a, g) => (i + 1, regs[a := env.global(g)])
    case Not(a, b) => (i + 1, regs[a := Bool(IsFalse(Get(regs, b)))])
    case Jmp(d) => (d, regs)
    case Compare(op, cond, b, c) =>
      (if env.holds(op, GetRK(regs, b), GetRK(regs, c)) == cond then i + 1 else i + 2, regs)
    case Test(a, c) => (if IsFalse(Get(regs, a)) != c then i + 1 else i + 2, regs)
    case TestSet(a, b, c) =>
      if IsFalse(Get(regs, b)) != c
      then (i + 1, if a == NO_REG then regs else regs[a := Get(regs, b)])
      else (i + 2, regs)
  }

  /** Runs from `i` until the end of the code or a jump that is still pending; never goes backward. */
  function Exec(env: Env, code: seq<Instr>, i: int, regs: Regs): (int, Regs)
    decreases |code| - i
  {
    if i < 0 || i >= |code| || code[i] == Jmp(PENDING) then (i, regs)
    else
      var (n, next) := Step(env, code[i], i, regs);
      if n <= i then (n, next) else Exec(env, code, n, next)
  }

  /** A jump may land on `d` unless `d` is the jump that belongs to a test. */
  predicate Landing(code: seq<Instr>, d: int) {
    0 <= d <= |code| && (d == 0 || !IsTest(code[d - 1]))
  }

  predicate WellPlaced(code: seq<Instr>, i: int)
    requires 0 <= i < |code|
  {
    match code[i]
    case Jmp(d) => d == PENDING || Landing(code, d)
    case LoadBool(_, _, skip) => skip ==> i + 1 < |code| && code[i + 1].LoadBool?
    case _ => IsTest(code[i]) ==> i + 1 < |code| && code[i + 1].Jmp?
  }

  predicate WellFormed(code: seq<Instr>) {
    forall i :: 0 <= i < |code| ==> WellPlaced(code, i)
  }

  predicate Onward(code: seq<Instr>, i: int)
    requires 0 <= i < |code|
  {
    code[i].Jmp? && code[i].dest != PENDING ==> i < code[i].dest
  }

  /** From `p0` on the code only jumps forward; what comes before may have loops. */
  predicate Runs(code: seq<Instr>, p0: int) {
    WellFormed(code) && Landing(code, p0) && forall i :: p0 <= i < |code| ==> Onward(code, i)
  }

  /** Where a run that starts on a landing position can stop. */
  lemma {:induction false} ExecStops(env: Env, code: seq<Instr>, i: int, regs: Regs)
    requires WellFormed(code) && 0 <= i <= |code| && forall k :: i <= k < |code| ==> Onward(code, k)
    ensures var (pos, _) := Exec(env, code, i, regs);
            i <= pos <= |code| && (pos < |code| ==> code[pos] == Jmp(PENDING))
    decreases |code| - i
  {
    if i < |code| && code[i] != Jmp(PENDING) {
      assert WellPlaced(code, i) && Onward(code, i);
      var (n, next) := Step(env, code[i], i, regs);
      ExecStops(env, code, n, next);
    }
  }

  /** Code appended to a well-formed piece is reached only through its end. */
  lemma {:induction false} ExecPrefix(env: Env, code: seq<Instr>, whole: seq<Instr>, i: int, regs: Regs)
    requires WellFormed(code) && 0 <= i <= |code| <= |whole| && whole[..|code|] == code
    requires forall k :: i <= k < |code| ==> Onward(code, k)
    ensures var (pos, mid) := Exec(env, code, i, regs);
            Exec(env, whole, i, regs) == if pos == |code| then Exec(env, whole, |code|, mid) else (pos, mid)
    decreases |code| - i
  {
    if i < |code| {
      assert whole[i] == code[i];
      if code[i] != Jmp(PENDING) {
        assert WellPlaced(code, i) && Onward(code, i);
        var (n, next) := Step(env, code[i], i, regs);
        ExecPrefix(env, code, whole, n, next);
        ExecStops(env, code, n, next);
      }
    }
  }
}
