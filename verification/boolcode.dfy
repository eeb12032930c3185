/** Code generation for boolean expressions (lcode.cc), with patch lists as plain sequences of positions. */
module BoolCode {
  import opened BoolVm

  datatype RelOp = NE | EQ | LT | LE | GT | GE

  /** Operand expressions and the operators that generate jumps. `Global` stands for every operand that one
      relocatable instruction loads; `Const` is a number or a string, never nil or a boolean. */
  datatype Expr =
    | Local(r: nat)
    | Global(g: nat)
    | True
    | False
    | Const(v: Value)
    | Negate(e: Expr)
    | And(a: Expr, b: Expr)
    | Or(a: Expr, b: Expr)
    | Rel(op: RelOp, a: Expr, b: Expr)

  predicate Scoped(x: Expr, nactvar: nat) {
    match x
    case Local(r) => r < nactvar
    case Const(v) => v.Other?
    case Negate(e) => Scoped(e, nactvar)
    case And(a, b) => Scoped(a, nactvar) && Scoped(b, nactvar)
    case Or(a, b) => Scoped(a, nactvar) && Scoped(b, nactvar)
    case Rel(_, a, b) => Scoped(a, nactvar) && Scoped(b, nactvar)
    case _ => true
  }

  function RelHolds(env: Env, op: RelOp, x: Value, y: Value): bool {
    match op
    case NE => !env.holds(Equal, x, y)
    case EQ => env.holds(Equal, x, y)
    case LT => env.holds(Less, x, y)
    case LE => env.holds(LessEqual, x, y)
    case GT => env.holds(Less, y, x)
    case GE => env.holds(LessEqual, y, x)
  }

  /** Short-circuit evaluation: the meaning of an expression. */
  function Eval(env: Env, x: Expr, regs: Regs): Value {
    match x
    case Local(r) => Get(regs, r)
    case Global(g) => env.global(g)
    case True => Bool(true)
    case False => Bool(false)
    case Const(v) => v
    case Negate(e) => Bool(IsFalse(Eval(env, e, regs)))
    case And(a, b) => var v := Eval(env, a, regs); if IsFalse(v) then v else Eval(env, b, regs)
    case Or(a, b) => var v := Eval(env, a, regs); if IsFalse(v) then Eval(env, b, regs) else v
    case Rel(op, a, b) => Bool(RelHolds(env, op, Eval(env, a, regs), Eval(env, b, regs)))
  }

  datatype Kind =
    | VTrue
    | VFalse
    | VK(v: Value)
    | VLocal(r: int)
    | VGlobal(g: nat)
    | VJmp(pc: int)
    | VReloc(pc: int)
    | VNonReloc(r: int)

  /** An expression descriptor: where the value is, and the jumps taken when it is known to be true or false. */
  datatype Exp = Exp(k: Kind, t: seq<int>, f: seq<int>)

  datatype Func = Func(code: seq<Instr>, jpc: seq<int>, freereg: int, nactvar: nat)

  predicate HasJumps(e: Exp) { e.t != e.f }

  // ---- patch lists

  /** The instruction that decides whether the jump at `j` is taken. */
  function Control(code: seq<Instr>, j: int): int {
    if 1 <= j <= |code| && IsTest(code[j - 1]) then j - 1 else j
  }

  predicate Carries(code: seq<Instr>, j: int) {
    1 <= j <= |code| && code[j - 1].TestSet?
  }

  /** A value-carrying test once its destination register is known. */
  function Settle(ins: Instr, reg: int): Instr
    requires ins.TestSet?
  {
    if reg != NO_REG && reg != ins.b then TestSet(reg, ins.b, ins.c) else Test(ins.b, ins.c)
  }

  function PatchedAt(code: seq<Instr>, list: seq<int>, vtarget: int, reg: int, dtarget: int, i: int): Instr
    requires 0 <= i < |code|
  {
    if i in list then Jmp(if Carries(code, i) then vtarget else dtarget)
    else if i + 1 in list && code[i].TestSet? then Settle(code[i], reg)
    else code[i]
  }

  function Patch(code: seq<Instr>, list: seq<int>, vtarget: int, reg: int, dtarget: int): (r: seq<Instr>)
    ensures |r| == |code|
  {
    seq(|code|, i requires 0 <= i < |code| => PatchedAt(code, list, vtarget, reg, dtarget, i))
  }

  function StrippedAt(code: seq<Instr>, list: seq<int>, i: int): Instr
    requires 0 <= i < |code|
  {
    if i + 1 in list && code[i].TestSet? then Settle(code[i], NO_REG) else code[i]
  }

  function RemoveValues(code: seq<Instr>, list: seq<int>): (r: seq<Instr>)
    ensures |r| == |code|
  {
    seq(|code|, i requires 0 <= i < |code| => StrippedAt(code, list, i))
  }

  predicate NeedValue(code: seq<Instr>, list: seq<int>) {
    exists j :: j in list && !Carries(code, j)
  }

  /** The code once the jumps waiting for the current position are aimed at it. */
  function View(fs: Func): (r: seq<Instr>)
    ensures |r| == |fs.code|
  {
    Patch(fs.code, fs.jpc, |fs.code|, NO_REG, |fs.code|)
  }

  // ---- emission and registers

  function Emit(fs: Func, ins: Instr): Func { fs.(code := View(fs) + [ins], jpc := []) }

  function Jump(fs: Func): (Func, seq<int>) {
    (fs.(code := fs.code + [Jmp(PENDING)], jpc := []), [|fs.code|] + fs.jpc)
  }

  function CondJump(fs: Func, ins: Instr): (Func, seq<int>) { Jump(Emit(fs, ins)) }

  function PatchToHere(fs: Func, list: seq<int>): Func { fs.(jpc := fs.jpc + list) }

  function ReserveRegs(fs: Func, n: nat): Func { fs.(freereg := fs.freereg + n) }

  function FreeExp(fs: Func, e: Exp): Func {
    if e.k.VNonReloc? && e.k.r >= fs.nactvar then fs.(freereg := fs.freereg - 1) else fs
  }

  // ---- putting values into registers

  function DischargeVars(fs: Func, e: Exp): (Func, Exp) {
    match e.k
    case VLocal(r) => (fs, e.(k := VNonReloc(r)))
    case VGlobal(g) => (Emit(fs, GetGlobal(0, g)), e.(k := VReloc(|fs.code|)))
    case _ => (fs, e)
  }

  function SetA(ins: Instr, reg: int): Instr {
    match ins
    case GetGlobal(_, g) => GetGlobal(reg, g)
    case Not(_, b) => Not(reg, b)
    case _ => ins
  }

  function Discharge2Reg(fs: Func, e: Exp, reg: int): (Func, Exp) {
    var (fs1, e1) := DischargeVars(fs, e);
    var loaded := e1.(k := VNonReloc(reg));
    match e1.k
    case VFalse => (Emit(fs1, LoadBool(reg, false, false)), loaded)
    case VTrue => (Emit(fs1, LoadBool(reg, true, false)), loaded)
    case VK(v) => (Emit(fs1, LoadK(reg, v)), loaded)
    case VReloc(pc) =>
      (if 0 <= pc < |fs1.code| then fs1.(code := fs1.code[pc := SetA(fs1.code[pc], reg)]) else fs1, loaded)
    case VNonReloc(r) => (if r != reg then Emit(fs1, Move(reg, r)) else fs1, loaded)
    case _ => (fs1, e1)
  }

  function Discharge2AnyReg(fs: Func, e: Exp): (Func, Exp) {
    if e.k.VNonReloc? then (fs, e) else Discharge2Reg(ReserveRegs(fs, 1), e, fs.freereg)
  }

  /** Emits the two boolean loads that jumps without a value need, jumped over by the value itself. */
  function LoadLabels(fs: Func, reg: int, isJump: bool): (Func, int, int) {
    var (fs1, fj) := if isJump then (fs, []) else Jump(fs);
    var fs2 := Emit(fs1, LoadBool(reg, false, true));
    var fs3 := Emit(fs2, LoadBool(reg, true, false));
    (PatchToHere(fs3, fj), |fs1.code|, |fs2.code|)
  }

  function PatchExits(fs: Func, e: Exp, reg: int, pF: int, pT: int): Func {
    var final := |fs.code|;
    fs.(code := Patch(Patch(fs.code, e.f, final, reg, pF), e.t, final, reg, pT))
  }

  function ResolveExits(fs: Func, e: Exp, reg: int): Func {
    if !HasJumps(e) then fs
    else if NeedValue(fs.code, e.t) || NeedValue(fs.code, e.f) then
      var (fs1, pF, pT) := LoadLabels(fs, reg, e.k.VJmp?);
      PatchExits(fs1, e, reg, pF, pT)
    else PatchExits(fs, e, reg, PENDING, PENDING)
  }

  function Exp2Reg(fs: Func, e: Exp, reg: int): (Func, Exp) {
    var (fs1, e1) := Discharge2Reg(fs, e, reg);
    var e2 := if e1.k.VJmp? then e1.(t := e1.t + [e1.k.pc]) else e1;
    (ResolveExits(fs1, e2, reg), Exp(VNonReloc(reg), [], []))
  }

  function Exp2NextReg(fs: Func, e: Exp): (Func, Exp) {
    var (fs1, e1) := DischargeVars(fs, e);
    var fs2 := ReserveRegs(FreeExp(fs1, e1), 1);
    Exp2Reg(fs2, e1, fs2.freereg - 1)
  }

  function Exp2AnyReg(fs: Func, e: Exp): (Func, Exp) {
    var (fs1, e1) := DischargeVars(fs, e);
    if e1.k.VNonReloc? && !HasJumps(e1) then (fs1, e1)
    else if e1.k.VNonReloc? && e1.k.r >= fs1.nactvar then Exp2Reg(fs1, e1, e1.k.r)
    else Exp2NextReg(fs1, e1)
  }

  function Exp2RK(fs: Func, e: Exp): (Func, Exp) {
    var (fs1, e1) := if HasJumps(e) then Exp2AnyReg(fs, e) else DischargeVars(fs, e);
    match e1.k
    case VTrue => (fs1, e1.(k := VK(Bool(true))))
    case VFalse => (fs1, e1.(k := VK(Bool(false))))
    case VK(_) => (fs1, e1)
    case _ => Exp2AnyReg(fs1, e1)
  }

  function RKOf(e: Exp): RK {
    match e.k
    case VK(v) => Kst(v)
    case VNonReloc(r) => Reg(r)
    case _ => Kst(Nil)
  }

  // ---- jumps

  function InvertJump(fs: Func, e: Exp): Func {
    if e.k.VJmp? && 1 <= e.k.pc <= |fs.code| && fs.code[e.k.pc - 1].Compare?
    then var c := fs.code[e.k.pc - 1]; fs.(code := fs.code[e.k.pc - 1 := c.(cond := !c.cond)])
    else fs
  }

  function JumpOnCond(fs: Func, e: Exp, cond: bool): (Func, seq<int>) {
    if e.k.VReloc? && 0 <= e.k.pc < |fs.code| && fs.code[e.k.pc].Not? then
      CondJump(fs.(code := fs.code[..|fs.code| - 1]), Test(fs.code[e.k.pc].b, !cond))
    else
      var (fs1, e1) := Discharge2AnyReg(fs, e);
      CondJump(FreeExp(fs1, e1), TestSet(NO_REG, if e1.k.VNonReloc? then e1.k.r else 0, cond))
  }

  function GoIfTrue(fs: Func, e: Exp): (Func, Exp) {
    var (fs1, e1) := DischargeVars(fs, e);
    var (fs2, pc) :=
      match e1.k
      case VK(_) => (fs1, [])
      case VTrue => (fs1, [])
      case VFalse => Jump(fs1)
      case VJmp(pc) => (InvertJump(fs1, e1), [pc])
      case _ => JumpOnCond(fs1, e1, false);
    (PatchToHere(fs2, e1.t), e1.(f := e1.f + pc, t := []))
  }

  function GoIfFalse(fs: Func, e: Exp): (Func, Exp) {
    var (fs1, e1) := DischargeVars(fs, e);
    var (fs2, pc) :=
      match e1.k
      case VFalse => (fs1, [])
      case VTrue => Jump(fs1)
      case VJmp(pc) => (fs1, [pc])
      case _ => JumpOnCond(fs1, e1, true);
    (PatchToHere(fs2, e1.f), e1.(t := e1.t + pc, f := []))
  }

  function CodeNot(fs: Func, e: Exp): (Func, Exp) {
    var (fs1, e1) := DischargeVars(fs, e);
    var (fs2, k) :=
      match e1.k
      case VFalse => (fs1, VTrue)
      case VTrue => (fs1, VFalse)
      case VK(_) => (fs1, VFalse)
      case VJmp(_) => (InvertJump(fs1, e1), e1.k)
      case _ =>
        var (g, d) := Discharge2AnyReg(fs1, e1);
        (Emit(FreeExp(g, d), Not(0, if d.k.VNonReloc? then d.k.r else 0)), VReloc(|g.code|));
    (fs2.(code := RemoveValues(RemoveValues(fs2.code, e1.t), e1.f)), Exp(k, e1.f, e1.t))
  }

  function CodeComp(fs: Func, op: Relation, cond: bool, e1: Exp, e2: Exp): (Func, Exp) {
    var (fs1, d1) := Exp2RK(fs, e1);
    var (fs2, d2) := Exp2RK(fs1, e2);
    var fs3 := FreeExp(FreeExp(fs2, d2), d1);
    var swap := !cond && op != Equal;
    var ins := if swap then Compare(op, true, RKOf(d2), RKOf(d1)) else Compare(op, cond, RKOf(d1), RKOf(d2));
    var (fs4, pc) := CondJump(fs3, ins);
    (fs4, d1.(k := VJmp(pc[0])))
  }

  // ---- operators, in the order the parser calls them

  function Infix(fs: Func, x: Expr, e: Exp): (Func, Exp) {
    match x
    case And(_, _) => GoIfTrue(fs, e)
    case Or(_, _) => GoIfFalse(fs, e)
    case _ => Exp2RK(fs, e)
  }

  function PosfixRel(fs: Func, op: RelOp, e1: Exp, e2: Exp): (Func, Exp) {
    match op
    case EQ => CodeComp(fs, Equal, true, e1, e2)
    case NE => CodeComp(fs, Equal, false, e1, e2)
    case LT => CodeComp(fs, Less, true, e1, e2)
    case LE => CodeComp(fs, LessEqual, true, e1, e2)
    case GT => CodeComp(fs, Less, false, e1, e2)
    case GE => CodeComp(fs, LessEqual, false, e1, e2)
  }

  function Posfix(fs: Func, x: Expr, e1: Exp, e2: Exp): (Func, Exp) {
    match x
    case And(_, _) => var (fs1, d) := DischargeVars(fs, e2); (fs1, d.(f := d.f + e1.f))
    case Or(_, _) => var (fs1, d) := DischargeVars(fs, e2); (fs1, d.(t := d.t + e1.t))
    case Rel(op, _, _) => PosfixRel(fs, op, e1, e2)
    case _ => (fs, e2)
  }

  function Binary(fs: Func, x: Expr): (Func, Exp)
    requires x.And? || x.Or? || x.Rel?
    decreases x, 0
  {
    var (fs1, e1) := Compile(fs, x.a);
    var (fs2, d1) := Infix(fs1, x, e1);
    var (fs3, e2) := Compile(fs2, x.b);
    Posfix(fs3, x, d1, e2)
  }

  function Compile(fs: Func, x: Expr): (Func, Exp)
    decreases x, 1
  {
    match x
    case Local(r) => (fs, Exp(VLocal(r), [], []))
    case Global(g) => (fs, Exp(VGlobal(g), [], []))
    case True => (fs, Exp(VTrue, [], []))
    case False => (fs, Exp(VFalse, [], []))
    case Const(v) => (fs, Exp(VK(v), [], []))
    case Negate(e) => var (fs1, d) := Compile(fs, e); CodeNot(fs1, d)
    case _ => Binary(fs, x)
  }
}
