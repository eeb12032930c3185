/** What the generated code of a boolean expression computes, said on the expression itself: for every expression,
    with or without literals (lcode.cc). */
module BoolAct {
  import opened BoolVm
  import opened BoolCode

  /** A jump that waits for the current position may still carry the value that its test would store. */
  datatype Hold = Free | Held(v: Value)

  /** How a run leaves the code of an expression: by a jump of the true or of the false list, or at the end. */
  datatype Leave = ByTrue(c: Hold) | ByFalse(c: Hold) | AtEnd(v: Value, c: Hold)

  /** The value that ends up in a register. */
  function Final(r: Leave): Value {
    match r
    case ByTrue(c) => if c.Held? then c.v else Bool(true)
    case ByFalse(c) => if c.Held? then c.v else Bool(false)
    case AtEnd(v, _) => v
  }

  /** What is left to do at the end of an expression. */
  datatype End = ETrue | EFalse | EConst | ELocal | EGlobal | EReg | ELoad | ENot | ETest

  function Discharged(k: End): End {
    match k
    case ELocal => EReg
    case EGlobal => ELoad
    case _ => k
  }

  function EndOf(x: Expr): End {
    match x
    case Local(_) => ELocal
    case Global(_) => EGlobal
    case True => ETrue
    case False => EFalse
    case Const(_) => EConst
    case Negate(e) =>
      (match Discharged(EndOf(e))
       case EFalse => ETrue
       case ETrue => EFalse
       case EConst => EFalse
       case ETest => ETest
       case _ => ENot)
    case And(_, b) => Discharged(EndOf(b))
    case Or(_, b) => Discharged(EndOf(b))
    case Rel(_, _, _) => ETest
  }

  /** Whether the code of an expression has jumps in its true and in its false list. */
  function Jumps(x: Expr): (bool, bool) {
    match x
    case Negate(e) => var (t, f) := Jumps(e); (f, t)
    case And(a, b) => (Jumps(b).0, Jumps(b).1 || Jumps(a).1 || !(EndOf(a) == ETrue || EndOf(a) == EConst))
    case Or(a, b) => (Jumps(b).0 || Jumps(a).0 || EndOf(a) != EFalse, Jumps(b).1)
    case _ => (false, false)
  }

  /** The end of an operand that needs no instruction. */
  predicate Silent(k: End) { k == ETrue || k == EFalse || k == EConst || k == EReg }

  /** Once a variable is loaded nothing waits for the position behind it. */
  function Loaded(k: End, r: Leave): Leave { if r.AtEnd? && k == EGlobal then r.(c := Free) else r }

  /** A jump on the value: the sense that goes on arrives at the end, with whatever its jumps carry. A literal of the
      other sense jumps always, and its jump takes over the jumps that wait for its position. */
  function JumpIf(k: End, r: Leave, sense: bool): Leave {
    match r
    case ByTrue(c) => if sense then AtEnd(Nil, c) else r
    case ByFalse(c) => if sense then r else AtEnd(Nil, c)
    case AtEnd(v, c) =>
      if sense && (k == ETrue || k == EConst) then r
      else if sense && k == EFalse then ByFalse(c)
      else if !sense && k == EFalse then r
      else if !sense && k == ETrue then ByTrue(c)
      else if IsFalse(v) == !sense then AtEnd(v, Free)
      else
        var carried := if k == ETest || k == ENot then Free else Held(v);
        if sense then ByFalse(carried) else ByTrue(carried)
  }

  /** What an operand of a comparison leaves waiting. */
  function OperandHold(x: Expr, r: Leave): Hold {
    if r.AtEnd? && Jumps(x) == (false, false) && Silent(Discharged(EndOf(x))) then r.c else Free
  }

  /** The run of the code of `x`, entered with a value held or not. */
  function Act(env: Env, x: Expr, regs: Regs, hold: Hold): Leave
    decreases x
  {
    match x
    case Local(r) => AtEnd(Get(regs, r), hold)
    case Global(g) => AtEnd(env.global(g), hold)
    case True => AtEnd(Bool(true), hold)
    case False => AtEnd(Bool(false), hold)
    case Const(v) => AtEnd(v, hold)
    case Negate(e) =>
      (match Act(env, e, regs, hold)
       case ByTrue(_) => ByFalse(Free)
       case ByFalse(_) => ByTrue(Free)
       case AtEnd(v, c) =>
         AtEnd(Bool(IsFalse(v)), if EndOf(e) == ETrue || EndOf(e) == EFalse || EndOf(e) == EConst then c else Free))
    case And(a, b) =>
      var g := JumpIf(EndOf(a), Act(env, a, regs, hold), true);
      if g.AtEnd? then Loaded(EndOf(b), Act(env, b, regs, g.c)) else g
    case Or(a, b) =>
      var g := JumpIf(EndOf(a), Act(env, a, regs, hold), false);
      if g.AtEnd? then Loaded(EndOf(b), Act(env, b, regs, g.c)) else g
    case Rel(op, a, b) =>
      var r := Act(env, a, regs, hold);
      var s := Act(env, b, regs, OperandHold(a, r));
      AtEnd(Bool(RelHolds(env, op, Final(r), Final(s))), Free)
  }

  /** The value the code of `x` computes when it is entered at its first instruction. */
  function Computed(env: Env, x: Expr, regs: Regs): Value { Final(Act(env, x, regs, Free)) }
}
