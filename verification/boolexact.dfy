/** When the code of an expression over different globals, with literals anywhere, is right in every environment; and
    what a statement leaves behind for the next one (lcode.cc, lparser.cc). */
module BoolExact {
  import opened BoolVm
  import opened BoolCode
  import opened BoolAct
  import opened BoolSound
  import opened BoolRight
  import opened BoolRuns

  // ---- the ways a run can take

  /** Operands that can be chosen freely: every global at most once, any literals, and nothing else but and, or, not. */
  predicate Apart(x: Expr) {
    match x
    case Global(_) => true
    case True => true
    case False => true
    case Const(v) => v.Other?
    case Negate(e) => Apart(e)
    case And(a, b) => Apart(a) && Apart(b) && Globals(a) !! Globals(b)
    case Or(a, b) => Apart(a) && Apart(b) && Globals(a) !! Globals(b)
    case _ => false
  }

  function Globals(x: Expr): set<nat> {
    match x
    case Global(g) => {g}
    case Negate(e) => Globals(e)
    case And(a, b) => Globals(a) + Globals(b)
    case Or(a, b) => Globals(a) + Globals(b)
    case Rel(_, a, b) => Globals(a) + Globals(b)
    case _ => {}
  }

  /** What a jump carries: nothing, the value of the expression, or a value that a literal should have replaced. */
  datatype Carry = Nothing | Itself | Alien

  /** A run leaves by a list, or it stops at the end, where something may wait that carries a value. */
  datatype Way = Leaves(sense: bool, carry: Carry) | Stops(truth: bool, held: bool)

  /** A jump on the value that goes on if the value has the sense. */
  function JumpWay(k: End, w: Way, sense: bool): Way {
    match w
    case Leaves(s, c) => if s == sense then Stops(sense, c != Nothing) else w
    case Stops(truth, held) =>
      if (sense && (k == ETrue || k == EConst)) || (!sense && k == EFalse) then w
      else if (sense && k == EFalse) || (!sense && k == ETrue) then Leaves(!sense, if held then Alien else Nothing)
      else if truth == sense then Stops(truth, false)
      else Leaves(!sense, if k == ETest || k == ENot then Nothing else Itself)
  }

  function NotWay(k: End, w: Way): Way {
    match w
    case Leaves(s, _) => Leaves(!s, Nothing)
    case Stops(truth, held) => Stops(!truth, held && Literal(k))
  }

  function LoadedWay(k: End, w: Way): Way { if w.Stops? && k == EGlobal then w.(held := false) else w }

  /** The ways through two operands: those that leave at the first, and, for each way to go on, those of the second. */
  function Through(first: set<Way>, sense: bool, k: End, free: set<Way>, held: set<Way>): set<Way> {
    (set g | g in first && g.Leaves?)
    + (if Stops(sense, false) in first then set w | w in free :: LoadedWay(k, w) else {})
    + (if Stops(sense, true) in first then set w | w in held :: LoadedWay(k, w) else {})
  }

  /** All ways through the code of `x`; `h` says whether a value waits where it begins. */
  function Ways(x: Expr, h: bool): set<Way> {
    match x
    case True => {Stops(true, h)}
    case False => {Stops(false, h)}
    case Const(_) => {Stops(true, h)}
    case Negate(e) => set w | w in Ways(e, h) :: NotWay(EndOf(e), w)
    case And(a, b) => Through(set w | w in Ways(a, h) :: JumpWay(EndOf(a), w, true), true, EndOf(b), Ways(b, false),
           Ways(b, true))
    case Or(a, b) => Through(set w | w in Ways(a, h) :: JumpWay(EndOf(a), w, false), false, EndOf(b), Ways(b, false),
           Ways(b, true))
    case _ => {Stops(true, h), Stops(false, h)}
  }

  /** Some way carries a value past a literal that should have replaced it. */
  predicate Spoils(x: Expr, h: bool) { Leaves(true, Alien) in Ways(x, h) || Leaves(false, Alien) in Ways(x, h) }

  // ---- every run takes one of them

  /** The values that the end of an expression allows. */
  predicate EndValue(k: End, v: Value) {
    && (k == ETrue ==> v == Bool(true)) && (k == EFalse ==> v == Bool(false)) && (k == EConst ==> v.Other?)
    && (k == ETest || k == ENot ==> v.Bool?)
  }

  /** The run `r` of an expression with value `v` takes the way `w`. */
  predicate Takes(k: End, r: Leave, v: Value, w: Way) {
    match w
    case Leaves(s, c) =>
      && (if s then r.ByTrue? else r.ByFalse?) && IsFalse(v) == !s && (c != Itself ==> v == Bool(s))
      && (if c == Nothing then r.c == Free else r.c.Held? && (c == Itself ==> r.c.v == v))
    case Stops(truth, held) => r.AtEnd? && r.v == v && IsFalse(v) == !truth && r.c.Held? == held && EndValue(k, v)
  }

  lemma JumpTakes(k: End, r: Leave, v: Value, w: Way, sense: bool)
    requires Takes(k, r, v, w)
    ensures var (g, gw) := (JumpIf(k, r, sense), JumpWay(k, w, sense));
            if gw.Stops? then g.AtEnd? && g.c.Held? == gw.held && gw.truth == sense && IsFalse(v) == !sense
            else !g.AtEnd? && IsFalse(v) == sense && forall k' :: Takes(k', g, v, gw)
  {
  }

  /** What the second operand makes of a run that goes on, or the first one of any other. */
  lemma LogicTakes(env: Env, x: Expr, regs: Regs, hold: Hold, wa: Way, wb: Way)
    requires (x.And? || x.Or?) && Takes(EndOf(x.a), Act(env, x.a, regs, hold), Eval(env, x.a, regs), wa)
    requires var g := JumpIf(EndOf(x.a), Act(env, x.a, regs, hold), x.And?);
             g.AtEnd? ==> Takes(EndOf(x.b), Act(env, x.b, regs, g.c), Eval(env, x.b, regs), wb)
    ensures var gw := JumpWay(EndOf(x.a), wa, x.And?);
            Takes(EndOf(x), Act(env, x, regs, hold), Eval(env, x, regs), if gw.Stops? then LoadedWay(EndOf(x.b), wb)
                                                                         else gw)
  {
    LogicAct(env, x, regs, hold);
    JumpTakes(EndOf(x.a), Act(env, x.a, regs, hold), Eval(env, x.a, regs), wa, x.And?);
    hide JumpIf, JumpWay;
  }

  lemma WayThrough(x: Expr, h: bool, wa: Way, wb: Way)
    requires (x.And? || x.Or?) && wa in Ways(x.a, h)
    requires var gw := JumpWay(EndOf(x.a), wa, x.And?); gw.Stops? ==> gw.truth == x.And? && wb in Ways(x.b, gw.held)
    ensures var gw := JumpWay(EndOf(x.a), wa, x.And?);
            (if gw.Stops? then LoadedWay(EndOf(x.b), wb) else gw) in Ways(x, h)
  {
    hide JumpWay, LoadedWay;
  }

  /** The run of `x` takes one of its ways. */
  lemma {:induction false} SomeWay(env: Env, x: Expr, regs: Regs, hold: Hold) returns (w: Way)
    requires Apart(x)
    ensures w in Ways(x, hold.Held?) && Takes(EndOf(x), Act(env, x, regs, hold), Eval(env, x, regs), w)
    decreases x
  {
    match x {
      case Negate(e) =>
        var we := SomeWay(env, e, regs, hold);
        w := NotWay(EndOf(e), we);
      case And(a, b) => w := SomeLogicWay(env, x, regs, hold);
      case Or(a, b) => w := SomeLogicWay(env, x, regs, hold);
      case Global(g) => w := Stops(!IsFalse(env.global(g)), hold.Held?);
      case False => w := Stops(false, hold.Held?);
      case _ => w := Stops(true, hold.Held?);
    }
  }

  lemma {:induction false} SomeLogicWay(env: Env, x: Expr, regs: Regs, hold: Hold) returns (w: Way)
    requires (x.And? || x.Or?) && Apart(x)
    ensures w in Ways(x, hold.Held?) && Takes(EndOf(x), Act(env, x, regs, hold), Eval(env, x, regs), w)
    decreases x, 0
  {
    var wa := SomeWay(env, x.a, regs, hold);
    var r, v := Act(env, x.a, regs, hold), Eval(env, x.a, regs);
    var g, gw := JumpIf(EndOf(x.a), r, x.And?), JumpWay(EndOf(x.a), wa, x.And?);
    JumpTakes(EndOf(x.a), r, v, wa, x.And?);
    var wb := wa;
    if gw.Stops? {
      wb := SomeWay(env, x.b, regs, g.c);
    }
    hide Ways, JumpIf, JumpWay, Takes, Act, Eval, EndOf;
    LogicTakes(env, x, regs, hold, wa, wb);
    WayThrough(x, hold.Held?, wa, wb);
    w := if gw.Stops? then LoadedWay(EndOf(x.b), wb) else gw;
  }

  // ---- every way is taken in some environment

  /** A carried value that is not a boolean cannot be mistaken for a literal. */
  predicate Odd(h: Hold) { h.Held? ==> !h.v.Bool? }

  predicate OddLeave(k: End, r: Leave) {
    Odd(r.c) && (r.AtEnd? && k != ETrue && k != EFalse && k != ETest && k != ENot ==> !r.v.Bool?)
  }

  predicate Agree(x: Expr, one: nat -> Value, other: nat -> Value) {
    forall g :: g in Globals(x) ==> one(g) == other(g)
  }

  predicate Driven(env: Env, x: Expr, regs: Regs, hold: Hold, w: Way) {
    var r := Act(env, x, regs, hold);
    Takes(EndOf(x), r, Eval(env, x, regs), w) && OddLeave(EndOf(x), r)
  }

  /** With these globals the run of `x` takes the way `w`, with odd values. */
  ghost predicate Drives(g: nat -> Value, x: Expr, h: bool, w: Way) {
    forall env: Env, regs: Regs, hold: Hold :: Agree(x, g, env.global) && hold.Held? == h && Odd(hold) ==>
          Driven(env, x, regs, hold, w)
  }

  function Mixed(a: Expr, one: nat -> Value, other: nat -> Value): nat -> Value {
    (g: nat) => if g in Globals(a) then one(g) else other(g)
  }

  lemma AgreeMixed(a: Expr, b: Expr, one: nat -> Value, other: nat -> Value, global: nat -> Value)
    requires Globals(a) !! Globals(b)
    requires forall g :: g in Globals(a) + Globals(b) ==> Mixed(a, one, other)(g) == global(g)
    ensures Agree(a, one, global) && Agree(b, other, global)
  {
    forall g | g in Globals(b) ensures other(g) == global(g) {
      assert Mixed(a, one, other)(g) == other(g);
    }
    forall g | g in Globals(a) ensures one(g) == global(g) {
      assert Mixed(a, one, other)(g) == one(g);
    }
  }

  lemma JumpOdd(k: End, r: Leave, sense: bool)
    requires OddLeave(k, r)
    ensures Odd(JumpIf(k, r, sense).c)
  {
  }

  lemma {:induction false} Drive(x: Expr, h: bool, w: Way) returns (g: nat -> Value)
    requires Apart(x) && w in Ways(x, h)
    ensures Drives(g, x, h, w)
    decreases x
  {
    match x {
      case Negate(e) => g := DriveNot(x, h, w);
      case And(a, b) => g := DriveLogic(x, h, w);
      case Or(a, b) => g := DriveLogic(x, h, w);
      case Global(n) => g := (m: nat) => if w.Stops? && w.truth then Other(0) else Nil;
      case _ => g := (m: nat) => Nil;
    }
  }

  lemma {:induction false} DriveNot(x: Expr, h: bool, w: Way) returns (g: nat -> Value)
    requires x.Negate? && Apart(x) && w in Ways(x, h)
    ensures Drives(g, x, h, w)
    decreases x, 0
  {
    var we :| we in Ways(x.e, h) && NotWay(EndOf(x.e), we) == w;
    g := Drive(x.e, h, we);
    forall env: Env, regs: Regs, hold: Hold | Agree(x, g, env.global) && hold.Held? == h && Odd(hold)
      ensures Driven(env, x, regs, hold, w)
    {
      assert Agree(x.e, g, env.global);
      assert Driven(env, x.e, regs, hold, we);
    }
  }

  /** The way through a binary operator comes from one of its first operand, and if that goes on one of its second. */
  lemma WaySplit(x: Expr, h: bool, w: Way) returns (wa: Way, wb: Way)
    requires (x.And? || x.Or?) && w in Ways(x, h)
    ensures wa in Ways(x.a, h)
    ensures var gw := JumpWay(EndOf(x.a), wa, x.And?);
            if gw.Stops? then wb in Ways(x.b, gw.held) && w == LoadedWay(EndOf(x.b), wb) else w == gw
  {
    hide JumpWay, LoadedWay;
    var first := set w | w in Ways(x.a, h) :: JumpWay(EndOf(x.a), w, x.And?);
    assert w in Through(first, x.And?, EndOf(x.b), Ways(x.b, false), Ways(x.b, true));
    if w in first && w.Leaves? {
      wa :| wa in Ways(x.a, h) && JumpWay(EndOf(x.a), wa, x.And?) == w;
      wb := wa;
    } else if Stops(x.And?, false) in first && exists v :: v in Ways(x.b, false) && LoadedWay(EndOf(x.b), v) == w {
      wa :| wa in Ways(x.a, h) && JumpWay(EndOf(x.a), wa, x.And?) == Stops(x.And?, false);
      wb :| wb in Ways(x.b, false) && LoadedWay(EndOf(x.b), wb) == w;
    } else {
      wa :| wa in Ways(x.a, h) && JumpWay(EndOf(x.a), wa, x.And?) == Stops(x.And?, true);
      wb :| wb in Ways(x.b, true) && LoadedWay(EndOf(x.b), wb) == w;
    }
  }

  lemma {:induction false} DriveLogic(x: Expr, h: bool, w: Way) returns (g: nat -> Value)
    requires (x.And? || x.Or?) && Apart(x) && w in Ways(x, h)
    ensures Drives(g, x, h, w)
    decreases x, 0
  {
    var wa, wb := WaySplit(x, h, w);
    var ga := Drive(x.a, h, wa);
    var gw := JumpWay(EndOf(x.a), wa, x.And?);
    var gb := ga;
    if gw.Stops? {
      gb := Drive(x.b, gw.held, wb);
    }
    g := Mixed(x.a, ga, gb);
    forall env: Env, regs: Regs, hold: Hold | Agree(x, g, env.global) && hold.Held? == h && Odd(hold)
      ensures Driven(env, x, regs, hold, w)
    {
      DrivenLogic(env, x, regs, hold, h, wa, wb, ga, gb);
    }
  }

  lemma DrivenLogic(env: Env, x: Expr, regs: Regs, hold: Hold, h: bool, wa: Way, wb: Way, ga: nat -> Value,
          gb: nat -> Value)
    requires (x.And? || x.Or?) && Apart(x) && Agree(x, Mixed(x.a, ga, gb), env.global) && hold.Held? == h && Odd(hold)
    requires Drives(ga, x.a, h, wa)
    requires var gw := JumpWay(EndOf(x.a), wa, x.And?); gw.Stops? ==> Drives(gb, x.b, gw.held, wb)
    ensures var gw := JumpWay(EndOf(x.a), wa, x.And?);
            Driven(env, x, regs, hold, if gw.Stops? then LoadedWay(EndOf(x.b), wb) else gw)
  {
    AgreeMixed(x.a, x.b, ga, gb, env.global);
    var r := Act(env, x.a, regs, hold);
    assert Driven(env, x.a, regs, hold, wa);
    JumpTakes(EndOf(x.a), r, Eval(env, x.a, regs), wa, x.And?);
    JumpOdd(EndOf(x.a), r, x.And?);
    LogicAct(env, x, regs, hold);
    var g := JumpIf(EndOf(x.a), r, x.And?);
    hide JumpIf, JumpWay, Takes;
    if g.AtEnd? {
      assert Driven(env, x.b, regs, g.c, wb);
    }
    LogicTakes(env, x, regs, hold, wa, wb);
  }

  // ---- exactly when the code is right

  /** In every environment the code of `x` leaves the value of `x`. */
  ghost predicate CodeRight(fs: Func, x: Expr) {
    forall env: Env, regs: Regs :: Left(env, fs, x, regs) == Eval(env, x, regs)
  }

  /** A way that carries no alien value ends with the value of the expression, and any other with an odd value. */
  lemma WayFinal(k: End, r: Leave, v: Value, w: Way)
    requires Takes(k, r, v, w)
    ensures w != Leaves(true, Alien) && w != Leaves(false, Alien) ==> Final(r) == v
    ensures w == Leaves(true, Alien) || w == Leaves(false, Alien) ==> OddLeave(k, r) ==> Final(r) != v
  {
  }

  lemma DriveAt(g: nat -> Value, x: Expr, h: bool, w: Way, env: Env, regs: Regs, hold: Hold)
    requires Drives(g, x, h, w) && Agree(x, g, env.global) && hold.Held? == h && Odd(hold)
    ensures Driven(env, x, regs, hold, w)
  {
  }

  lemma RightWay(env: Env, x: Expr, regs: Regs, hold: Hold)
    requires Apart(x) && !Spoils(x, hold.Held?)
    ensures Final(Act(env, x, regs, hold)) == Eval(env, x, regs)
  {
    var w := SomeWay(env, x, regs, hold);
    hide Ways, Takes, Act, Eval;
    WayFinal(EndOf(x), Act(env, x, regs, hold), Eval(env, x, regs), w);
  }

  lemma WrongWay(env: Env, x: Expr, regs: Regs, hold: Hold, w: Way)
    requires Driven(env, x, regs, hold, w) && w.Leaves? && w.carry == Alien
    ensures Final(Act(env, x, regs, hold)) != Eval(env, x, regs)
  {
    hide Takes, OddLeave, Act, Eval;
    WayFinal(EndOf(x), Act(env, x, regs, hold), Eval(env, x, regs), w);
  }

  lemma SpoilingWay(x: Expr, h: bool) returns (g: nat -> Value, w: Way)
    requires Apart(x) && Spoils(x, h)
    ensures Drives(g, x, h, w) && w.Leaves? && w.carry == Alien
  {
    w := if Leaves(true, Alien) in Ways(x, h) then Leaves(true, Alien) else Leaves(false, Alien);
    g := Drive(x, h, w);
  }

  /** Literals anywhere: the code of an expression over different globals is right in every environment if and only if
      no way through it carries a value past a literal. */
  lemma CodeExact(fs: Func, x: Expr)
    requires FuncOK(fs) && fs.nactvar <= fs.freereg && Apart(x)
    ensures CodeRight(fs, x) <==> !Spoils(x, false)
  {
    hide Spoils, Drives, Driven, Act, Eval, Left, Final, FuncOK, Apart, Scoped;
    ApartScoped(x, fs.nactvar);
    if Spoils(x, false) {
      var g, w := SpoilingWay(x, false);
      var env, regs: Regs := Env(g, (_, _, _) => true), map[];
      DriveAt(g, x, false, w, env, regs, Free);
      WrongWay(env, x, regs, Free, w);
      LeftIs(env, fs, x, regs);
      assert Left(env, fs, x, regs) != Eval(env, x, regs);
    } else {
      forall env: Env, regs: Regs ensures Left(env, fs, x, regs) == Eval(env, x, regs) {
        RightWay(env, x, regs, Free);
        LeftIs(env, fs, x, regs);
      }
    }
  }

  lemma {:induction false} ApartScoped(x: Expr, n: nat)
    requires Apart(x)
    ensures Scoped(x, n)
    decreases x
  {
    match x
    case Negate(e) => ApartScoped(e, n);
    case And(a, b) => ApartScoped(a, n); ApartScoped(b, n);
    case Or(a, b) => ApartScoped(a, n); ApartScoped(b, n);
    case _ =>
  }

  // ---- without literals

  /** Every global at most once, and nothing else but and, or, not. */
  predicate Once(x: Expr) {
    match x
    case Global(_) => true
    case Negate(e) => Once(e)
    case And(a, b) => Once(a) && Once(b) && Globals(a) !! Globals(b)
    case Or(a, b) => Once(a) && Once(b) && Globals(a) !! Globals(b)
    case _ => false
  }

  lemma {:induction false} OnceApart(x: Expr)
    requires Once(x)
    ensures Apart(x) && ConstantFree(x)
    decreases x
  {
    match x
    case Negate(e) => OnceApart(e);
    case And(a, b) => OnceApart(a); OnceApart(b);
    case Or(a, b) => OnceApart(a); OnceApart(b);
    case _ =>
  }

  /** Without constants what may be carried does not depend on what waits. */
  lemma {:induction false} MayAlways(x: Expr, h: bool)
    requires Once(x)
    ensures May(x, h).0 == May(x, false).0 && May(x, h).1 == May(x, false).1
    ensures Discharged(EndOf(x)) == ELoad || Discharged(EndOf(x)) == ENot
    decreases x
  {
    match x
    case Negate(e) => MayAlways(e, h);
    case And(a, b) =>
      MayAlways(a, h);
      MayAlways(b, WaitsNext(a, h, true));
      MayAlways(b, WaitsNext(a, false, true));
    case Or(a, b) =>
      MayAlways(a, h);
      MayAlways(b, WaitsNext(a, h, false));
      MayAlways(b, WaitsNext(a, false, false));
    case _ =>
  }

  /** Whether jumps of one list may carry a value. */
  predicate MayCarry(x: Expr, sense: bool) { if sense then May(x, false).0 else May(x, false).1 }

  function Truth(w: Way): bool { if w.Leaves? then w.sense else w.truth }

  lemma TruthGoes(k: End, w: Way, sense: bool)
    requires !Literal(k)
    ensures var gw := JumpWay(k, w, sense); Truth(gw) == Truth(w) && (gw.Stops? <==> Truth(w) == sense)
  {
  }

  /** The value can be of either sense. */
  lemma {:induction false} EitherWay(x: Expr, h: bool, truth: bool) returns (w: Way)
    requires Once(x)
    ensures w in Ways(x, h) && Truth(w) == truth
    decreases x
  {
    match x {
      case Negate(e) =>
        var we := EitherWay(e, h, !truth);
        w := NotWay(EndOf(e), we);
      case And(a, b) => w := EitherLogicWay(x, h, truth);
      case Or(a, b) => w := EitherLogicWay(x, h, truth);
      case Global(_) => w := Stops(truth, h);
    }
  }

  lemma {:induction false} EitherLogicWay(x: Expr, h: bool, truth: bool) returns (w: Way)
    requires (x.And? || x.Or?) && Once(x)
    ensures w in Ways(x, h) && Truth(w) == truth
    decreases x, 0
  {
    MayAlways(x.a, h);
    var wa := EitherWay(x.a, h, truth);
    var gw := JumpWay(EndOf(x.a), wa, x.And?);
    TruthGoes(EndOf(x.a), wa, x.And?);
    hide Ways, JumpWay, EndOf, May;
    if gw.Stops? {
      var wb := EitherWay(x.b, gw.held, truth);
      WayThrough(x, h, wa, wb);
      w := LoadedWay(EndOf(x.b), wb);
    } else {
      WayThrough(x, h, wa, wa);
      w := gw;
    }
  }

  /** A loaded value is still there at the end, of either sense. */
  lemma {:induction false} StopWay(x: Expr, h: bool, truth: bool) returns (w: Way)
    requires Once(x) && Discharged(EndOf(x)) == ELoad
    ensures w in Ways(x, h) && w.Stops? && w.truth == truth
    decreases x
  {
    if x.Global? {
      w := Stops(truth, h);
    } else {
      MayAlways(x.a, h);
      var wa := EitherWay(x.a, h, x.And?);
      var gw := JumpWay(EndOf(x.a), wa, x.And?);
      TruthGoes(EndOf(x.a), wa, x.And?);
      hide Ways, JumpWay, May;
      var wb := StopWay(x.b, gw.held, truth);
      WayThrough(x, h, wa, wb);
      w := LoadedWay(EndOf(x.b), wb);
    }
  }

  /** A run can leave by a list with its value exactly if the jumps of the list may carry one; and with no other
      value. */
  lemma {:induction false} OnceWays(x: Expr, h: bool, sense: bool)
    requires Once(x)
    ensures Leaves(sense, Itself) in Ways(x, h) <==> MayCarry(x, sense)
    ensures Leaves(sense, Alien) !in Ways(x, h)
    decreases x
  {
    match x {
      case Negate(e) =>
      case And(a, b) => OnceOwn(x, h, sense); OnceOthers(x, h, sense);
      case Or(a, b) => OnceOwn(x, h, sense); OnceOthers(x, h, sense);
      case Global(_) =>
    }
  }

  /** The jump on the first operand leaves with the value. */
  predicate LeavesFirst(x: Expr, sense: bool)
    requires x.And? || x.Or?
  {
    sense != x.And? && (MayCarry(x.a, sense) || Discharged(EndOf(x.a)) == ELoad)
  }

  lemma MayLogic(x: Expr, sense: bool)
    requires (x.And? || x.Or?) && Once(x)
    ensures MayCarry(x, sense) <==> LeavesFirst(x, sense) || MayCarry(x.b, sense)
  {
    MayAlways(x.a, false);
    MayAlways(x.b, WaitsNext(x.a, false, x.And?));
    var (ta, fa, _) := May(x.a, false);
    var (tb, fb, _) := May(x.b, WaitsNext(x.a, false, x.And?));
    if x.And? {
      assert May(x, false).0 == tb && May(x, false).1 == (fb || fa || LastMay(x.a, false, true));
    } else {
      assert May(x, false).0 == (tb || ta || LastMay(x.a, false, false)) && May(x, false).1 == fb;
    }
  }

  lemma {:induction false} OnceOwn(x: Expr, h: bool, sense: bool)
    requires (x.And? || x.Or?) && Once(x)
    ensures MayCarry(x, sense) ==> Leaves(sense, Itself) in Ways(x, h)
    decreases x, 0
  {
    MayLogic(x, sense);
    MayAlways(x.a, h);
    if LeavesFirst(x, sense) {
      var wa := Leaves(sense, Itself);
      if MayCarry(x.a, sense) {
        OnceWays(x.a, h, sense);
      } else {
        wa := StopWay(x.a, h, sense);
      }
      WayThrough(x, h, wa, wa);
    } else if MayCarry(x.b, sense) {
      var wa := EitherWay(x.a, h, x.And?);
      var gw := JumpWay(EndOf(x.a), wa, x.And?);
      OnceWays(x.b, gw.held, sense);
      WayThrough(x, h, wa, Leaves(sense, Itself));
    }
  }

  lemma {:induction false} OnceOthers(x: Expr, h: bool, sense: bool)
    requires (x.And? || x.Or?) && Once(x)
    ensures Leaves(sense, Itself) in Ways(x, h) ==> MayCarry(x, sense)
    ensures Leaves(sense, Alien) !in Ways(x, h)
    decreases x, 0
  {
    hide Ways, MayCarry, May, JumpWay, EndOf;
    MayLogic(x, sense);
    MayAlways(x.a, h);
    OnceWays(x.a, h, sense);
    OnceWays(x.b, false, sense);
    OnceWays(x.b, true, sense);
    if Leaves(sense, Itself) in Ways(x, h) {
      var wa, wb := WaySplit(x, h, Leaves(sense, Itself));
      OwnJump(EndOf(x.a), wa, x.And?, sense);
    }
    if Leaves(sense, Alien) in Ways(x, h) {
      var wa, wb := WaySplit(x, h, Leaves(sense, Alien));
      OwnJump(EndOf(x.a), wa, x.And?, sense);
    }
  }

  lemma OwnJump(k: End, w: Way, goes: bool, sense: bool)
    requires !Literal(k)
    ensures JumpWay(k, w, goes) == Leaves(sense, Itself) ==>
              sense != goes && (w == Leaves(sense, Itself) || (k != ETest && k != ENot))
    ensures JumpWay(k, w, goes) == Leaves(sense, Alien) ==> w == Leaves(sense, Alien)
  {
  }

  /** A carried value that shows the fault: true or false, but not the literal of that name. */
  lemma CarriesOdd(env: Env, y: Expr, regs: Regs, sense: bool)
    requires Driven(env, y, regs, Free, Leaves(sense, Itself))
    ensures CarriesOn(env, sense, y, regs) && IsFalse(Eval(env, y, regs)) == !sense && !Eval(env, y, regs).Bool?
  {
  }

  /** With a literal whose jump is always taken the code is right in every environment if and only if no jump of `y`
      that waits for the literal can carry a value. */
  lemma LiteralExact(fs: Func, inner: bool, literal: bool, y: Expr, z: Expr)
    requires FuncOK(fs) && fs.nactvar <= fs.freereg && Once(y) && ConstantFree(z) && Scoped(z, fs.nactvar)
    ensures CodeRight(fs, Decided(inner, literal, y, z)) <==> !MayCarry(y, inner)
  {
    var x := Decided(inner, literal, y, z);
    OnceApart(y);
    ApartScoped(y, fs.nactvar);
    DecidedScoped(inner, literal, y, z, fs.nactvar);
    OnceWays(y, false, inner);
    if MayCarry(y, inner) {
      var g := Drive(y, false, Leaves(inner, Itself));
      var env, regs: Regs := Env(g, (_, _, _) => true), map[];
      DriveAt(g, y, false, Leaves(inner, Itself), env, regs, Free);
      CarriesOdd(env, y, regs, inner);
      LeftIs(env, fs, x, regs);
      DecidedComputes(env, inner, literal, y, z, regs, fs.nactvar);
      DecidedEval(env, inner, literal, y, z, regs);
      assert Left(env, fs, x, regs) != Eval(env, x, regs);
    } else {
      forall env: Env, regs: Regs ensures Left(env, fs, x, regs) == Eval(env, x, regs) {
        LeftIs(env, fs, x, regs);
        DecidedComputes(env, inner, literal, y, z, regs, fs.nactvar);
        var w := SomeWay(env, y, regs, Free);
        NoneCarriedOn(env, y, regs, inner, w);
      }
    }
  }

  lemma NoneCarriedOn(env: Env, y: Expr, regs: Regs, sense: bool, w: Way)
    requires Once(y) && !MayCarry(y, sense) && w in Ways(y, false)
               && Takes(EndOf(y), Act(env, y, regs, Free), Eval(env, y, regs), w)
    ensures !CarriesOn(env, sense, y, regs)
  {
    OnceWays(y, false, sense);
    if w.Leaves? && w.sense == sense {
      assert w.carry == Nothing;
    }
  }

  lemma DecidedScoped(inner: bool, literal: bool, y: Expr, z: Expr, n: nat)
    requires Scoped(y, n) && Scoped(z, n)
    ensures Scoped(Decided(inner, literal, y, z), n)
  {
  }

  /** The smallest case: `((g0 or g1) and true) or g2` is `g0` when that is neither nil nor false, and should be
      true. */
  lemma LiteralJumpKeepsValue(env: Env, fs: Func, regs: Regs)
    requires FuncOK(fs) && fs.nactvar <= fs.freereg && !IsFalse(env.global(0))
    ensures var x := Or(And(Or(Global(0), Global(1)), True), Global(2));
            Left(env, fs, x, regs) == env.global(0) && Eval(env, x, regs) == Bool(true)
  {
    var y, z := Or(Global(0), Global(1)), Global(2);
    assert Or(And(y, True), z) == Decided(true, true, y, z);
    assert Act(env, y, regs, Free) == ByTrue(Held(env.global(0)));
    DecidedScoped(true, true, y, z, fs.nactvar);
    LeftIs(env, fs, Decided(true, true, y, z), regs);
    DecidedComputes(env, true, true, y, z, regs, fs.nactvar);
    DecidedEval(env, true, true, y, z, regs);
  }

  // ---- across statements

  /** The code of `if y then end`: the jump around the empty block waits for whatever comes next. */
  function IfEnd(fs: Func, y: Expr): Func {
    var (fs1, e1) := Compile(fs, y);
    var (fs2, e2) := GoIfTrue(fs1, e1);
    PatchToHere(fs2, e2.f)
  }

  /** What the run brings along behind `if y then end`. */
  function Brought(env: Env, y: Expr, regs: Regs): Hold {
    Joined(JumpIf(EndOf(y), Act(env, y, regs, Free), true), false).c
  }

  /** What the code of `if y then end local v = x` leaves in the register of `v`. */
  function Behind(env: Env, fs: Func, y: Expr, x: Expr, regs: Regs): Value {
    var (fs2, e2) := Compile(IfEnd(fs, y), x);
    Get(Exec(env, View(Exp2NextReg(fs2, e2).0), |fs.code|, regs).1, fs.freereg)
  }

  /** An expression behind `if y then end` begins with what the run brings along. */
  lemma BehindIs(env: Env, fs: Func, y: Expr, x: Expr, regs: Regs)
    requires FuncOK(fs) && fs.nactvar <= fs.freereg && Scoped(y, fs.nactvar) && Scoped(x, fs.nactvar)
    ensures Behind(env, fs, y, x, regs) == Final(Act(env, x, regs, Brought(env, y, regs)))
  {
    hide Means, Act, GoIfTrue, Exp2NextReg, Fits, Exec, Lists, Framed, FuncOK;
    var c := Entered(env, fs, regs);
    EnteredStarts(env, fs, regs);
    CompileMeans(c, fs, y, Free);
    var (fs1, e1) := Compile(fs, y);
    var j := JumpIf(EndOf(y), Act(env, y, regs, Free), true);
    GoIfTrueArrives(c, fs1, e1, EndOf(y), Act(env, y, regs, Free));
    var (fs2, e2) := GoIfTrue(fs1, e1);
    PatchToHereArrives(c, fs2, [], e2.f, false, j);
    var fs3 := PatchToHere(fs2, e2.f);
    SecondStarts(c, fs3, [], [], Joined(j, false));
    var c2 := Second(c, fs3, [], [], Joined(j, false));
    var h := Joined(j, false).c;
    ArrivedSame(c, fs3, Joined(j, false));
    ExpressionToNextReg(c2, fs3, x, h);
    ActSame(env, x, fs.nactvar, regs, Locals(c2), h);
  }

  lemma ArrivedSame(c: Ctx, fs: Func, res: Leave)
    requires Arrives(c, fs, [], [], res) && c.en.Here? && res.AtEnd?
    ensures Same(fs.nactvar, -1, c.en.mid, Exec(c.env, View(fs), c.p0, c.regs).1)
  {
  }

  /** A literal at the beginning of a statement takes over what the statement before carries: after `if y then end`, the
      variable of `local v = true or z` is the value the run brings along, if it brings one, and else it is true. */
  lemma StatementBefore(env: Env, fs: Func, y: Expr, z: Expr, regs: Regs)
    requires FuncOK(fs) && fs.nactvar <= fs.freereg && Scoped(y, fs.nactvar) && Scoped(z, fs.nactvar)
    ensures Behind(env, fs, y, Or(True, z), regs)
            == if Brought(env, y, regs).Held? then Brought(env, y, regs).v else Bool(true)
  {
    hide Behind, Brought;
    BehindIs(env, fs, y, Or(True, z), regs);
  }

  /** The smallest case: the variable is `g0` where that is nil or false. */
  lemma StatementBeforeGlobal(env: Env, fs: Func, z: Expr, regs: Regs)
    requires FuncOK(fs) && fs.nactvar <= fs.freereg && Scoped(z, fs.nactvar)
    ensures Behind(env, fs, Global(0), Or(True, z), regs)
            == if IsFalse(env.global(0)) then env.global(0) else Bool(true)
  {
    hide Behind;
    StatementBefore(env, fs, Global(0), z, regs);
  }

  /** Behind any `if y then end` an expression is computed right if none of its literals can meet a waiting value. */
  lemma SafeBehind(env: Env, fs: Func, y: Expr, x: Expr, regs: Regs)
    requires FuncOK(fs) && fs.nactvar <= fs.freereg && Scoped(y, fs.nactvar) && Scoped(x, fs.nactvar) && Safe(x, true)
    ensures Behind(env, fs, y, x, regs) == Eval(env, x, regs)
  {
    hide Behind;
    BehindIs(env, fs, y, x, regs);
    SafeGood(env, x, regs, fs.nactvar, Brought(env, y, regs), true);
    GoodFinal(Act(env, x, regs, Brought(env, y, regs)), Eval(env, x, regs), May(x, true), EndOf(x));
  }

  function IfWay(k: End, w: Way): bool {
    var g := JumpWay(k, w, true);
    if g.Leaves? then g.carry != Nothing else g.held
  }

  /** Whether a run can bring a value along behind `if y then end`, and whether it can bring none. */
  function Bring(y: Expr): set<bool> { set w | w in Ways(y, false) :: IfWay(EndOf(y), w) }

  lemma BroughtWay(env: Env, y: Expr, regs: Regs, w: Way)
    requires Takes(EndOf(y), Act(env, y, regs, Free), Eval(env, y, regs), w)
    ensures Brought(env, y, regs).Held? <==> IfWay(EndOf(y), w)
    ensures OddLeave(EndOf(y), Act(env, y, regs, Free)) ==> Odd(Brought(env, y, regs))
  {
    hide Act, Eval;
  }

  /** In every environment the code of `x` behind `if y then end` leaves the value of `x`. */
  ghost predicate RightBehind(fs: Func, y: Expr, x: Expr) {
    forall env: Env, regs: Regs :: Behind(env, fs, y, x, regs) == Eval(env, x, regs)
  }

  /** Exactly when a statement spoils the next one: the code of `x` behind `if y then end` is right in every environment
      if and only if no way through `x` carries a value past a literal, whatever `y` can bring along. */
  lemma BehindExact(fs: Func, y: Expr, x: Expr)
    requires FuncOK(fs) && fs.nactvar <= fs.freereg && Apart(y) && Apart(x) && Globals(y) !! Globals(x)
    ensures RightBehind(fs, y, x) <==> forall h :: h in Bring(y) ==> !Spoils(x, h)
  {
    hide Behind, Bring, Spoils, FuncOK, Globals, Apart, Eval;
    if h :| h in Bring(y) && Spoils(x, h) {
      WrongBehind(fs, y, x, h);
    } else {
      forall env: Env, regs: Regs ensures Behind(env, fs, y, x, regs) == Eval(env, x, regs) {
        UnspoiledBehind(env, fs, y, x, regs);
      }
    }
  }

  lemma WrongBehind(fs: Func, y: Expr, x: Expr, h: bool)
    requires FuncOK(fs) && fs.nactvar <= fs.freereg && Apart(y) && Apart(x) && Globals(y) !! Globals(x)
    requires h in Bring(y) && Spoils(x, h)
    ensures !RightBehind(fs, y, x)
  {
    hide Behind, Bring, Brought, Spoils, Act, Eval, Final, FuncOK, Globals, Apart, Scoped;
    ApartScoped(x, fs.nactvar);
    ApartScoped(y, fs.nactvar);
    var env, regs := SpoiledBehind(y, x, h);
    BehindIs(env, fs, y, x, regs);
    assert Behind(env, fs, y, x, regs) != Eval(env, x, regs);
  }

  lemma UnspoiledBehind(env: Env, fs: Func, y: Expr, x: Expr, regs: Regs)
    requires FuncOK(fs) && fs.nactvar <= fs.freereg && Apart(y) && Apart(x) && forall h :: h in Bring(y) ==>
               !Spoils(x, h)
    ensures Behind(env, fs, y, x, regs) == Eval(env, x, regs)
  {
    hide Behind, Bring, Brought, Spoils, Act, Eval, Final, FuncOK, Globals, Apart, Scoped;
    ApartScoped(x, fs.nactvar);
    ApartScoped(y, fs.nactvar);
    BehindIs(env, fs, y, x, regs);
    var h := BroughtSome(env, y, regs);
    RightWay(env, x, regs, Brought(env, y, regs));
  }

  lemma BroughtSome(env: Env, y: Expr, regs: Regs) returns (h: bool)
    requires Apart(y)
    ensures h in Bring(y) && h == Brought(env, y, regs).Held?
  {
    var w := SomeWay(env, y, regs, Free);
    BroughtWay(env, y, regs, w);
    h := IfWay(EndOf(y), w);
  }

  /** The globals of both can be chosen so that `y` brings a value that `x` takes for a literal. */
  lemma SpoiledBehind(y: Expr, x: Expr, h: bool) returns (env: Env, regs: Regs)
    requires Apart(y) && Apart(x) && Globals(y) !! Globals(x) && h in Bring(y) && Spoils(x, h)
    ensures Final(Act(env, x, regs, Brought(env, y, regs))) != Eval(env, x, regs)
  {
    var gy, wy := BringingWay(y, h);
    var gx, wx := SpoilingWay(x, h);
    env, regs := Env(Mixed(y, gy, gx), (_, _, _) => true), map[];
    AgreeMixed(y, x, gy, gx, env.global);
    hide Drives, Driven, Agree, Mixed, Ways, Act, Eval, IfWay, Brought, Spoils, Bring, Globals;
    DriveAt(gy, y, false, wy, env, regs, Free);
    DrivenBrings(env, y, regs, wy);
    DriveAt(gx, x, h, wx, env, regs, Brought(env, y, regs));
    WrongWay(env, x, regs, Brought(env, y, regs), wx);
  }

  lemma BringingWay(y: Expr, h: bool) returns (g: nat -> Value, w: Way)
    requires Apart(y) && h in Bring(y)
    ensures Drives(g, y, false, w) && IfWay(EndOf(y), w) == h
  {
    w :| w in Ways(y, false) && IfWay(EndOf(y), w) == h;
    g := Drive(y, false, w);
  }

  lemma DrivenBrings(env: Env, y: Expr, regs: Regs, w: Way)
    requires Driven(env, y, regs, Free, w)
    ensures (Brought(env, y, regs).Held? <==> IfWay(EndOf(y), w)) && Odd(Brought(env, y, regs))
  {
    hide Act, Eval, Takes, OddLeave, Brought, IfWay;
    BroughtWay(env, y, regs, w);
  }

  /** The variable of `local v = true or z` behind `if y then end` is true in every environment if and only if no run of
      `y` can bring a value along. */
  lemma StatementExact(fs: Func, y: Expr, z: Expr)
    requires FuncOK(fs) && fs.nactvar <= fs.freereg && Apart(y) && Scoped(z, fs.nactvar)
    ensures RightBehind(fs, y, Or(True, z)) <==> true !in Bring(y)
  {
    hide Behind, Bring, Brought, Ways, FuncOK, Apart, Scoped;
    ApartScoped(y, fs.nactvar);
    if true in Bring(y) {
      var env, regs := BringsOdd(y);
      StatementBefore(env, fs, y, z, regs);
      assert Behind(env, fs, y, Or(True, z), regs) != Eval(env, Or(True, z), regs);
    } else {
      forall env: Env, regs: Regs ensures Behind(env, fs, y, Or(True, z), regs) == Eval(env, Or(True, z), regs) {
        StatementBefore(env, fs, y, z, regs);
        var h := BroughtSome(env, y, regs);
      }
    }
  }

  lemma BringsOdd(y: Expr) returns (env: Env, regs: Regs)
    requires Apart(y) && true in Bring(y)
    ensures Brought(env, y, regs).Held? && !Brought(env, y, regs).v.Bool?
  {
    var g, w := BringingWay(y, true);
    env, regs := Env(g, (_, _, _) => true), map[];
    DriveAt(g, y, false, w, env, regs, Free);
    DrivenBrings(env, y, regs, w);
  }

  /** Without literals in `y` that is so if no jump of `y` may carry a value and `y` does not end with a load. */
  lemma OnceBrings(y: Expr)
    requires Once(y)
    ensures true in Bring(y) <==> MayCarry(y, true) || MayCarry(y, false) || Discharged(EndOf(y)) == ELoad
  {
    OnceWays(y, false, true);
    OnceWays(y, false, false);
    MayAlways(y, false);
    if Discharged(EndOf(y)) == ELoad {
      var w := StopWay(y, false, false);
      WayBrings(y, w);
      LoadBrings(EndOf(y), w);
    }
    hide Ways, May, EndOf, Discharged, IfWay;
    if MayCarry(y, true) {
      WayBrings(y, Leaves(true, Itself));
      JumpBrings(EndOf(y), true);
    }
    if MayCarry(y, false) {
      WayBrings(y, Leaves(false, Itself));
      JumpBrings(EndOf(y), false);
    }
    if true in Bring(y) {
      var w :| w in Ways(y, false) && IfWay(EndOf(y), w);
      OnlyBrings(EndOf(y), w);
    }
  }

  lemma LoadBrings(k: End, w: Way)
    requires Discharged(k) == ELoad && w.Stops? && !w.truth
    ensures IfWay(k, w)
  {
  }

  lemma JumpBrings(k: End, sense: bool)
    ensures IfWay(k, Leaves(sense, Itself))
  {
  }

  lemma OnlyBrings(k: End, w: Way)
    requires IfWay(k, w) && (Discharged(k) == ELoad || Discharged(k) == ENot)
    ensures (w.Leaves? && w.carry != Nothing) || Discharged(k) == ELoad
  {
  }

  lemma WayBrings(y: Expr, w: Way)
    requires w in Ways(y, false)
    ensures IfWay(EndOf(y), w) in Bring(y)
  {
    hide Ways, IfWay;
  }
}
