/** When the generated code computes the value of the expression (lcode.cc). */
module BoolRight {
  import opened BoolVm
  import opened BoolCode
  import opened BoolAct
  import opened BoolRuns
  import opened BoolSound

  // ---- the value is right unless a literal takes over a carried value

  /** Which jumps of the code of `x` may carry a value: those of its true list, of its false list, and those that wait
      at its end; `h` says whether something waits at its beginning. */
  function May(x: Expr, h: bool): (bool, bool, bool)
    decreases x, 0
  {
    match x
    case Negate(e) => (false, false, Literal(EndOf(e)) && May(e, h).2)
    case And(a, b) =>
      var (ta, fa, _) := May(a, h);
      var (tb, fb, eb) := May(b, WaitsNext(a, h, true));
      (tb, fb || fa || LastMay(a, h, true), eb && EndOf(b) != EGlobal)
    case Or(a, b) =>
      var (ta, fa, _) := May(a, h);
      var (tb, fb, eb) := May(b, WaitsNext(a, h, false));
      (tb || ta || LastMay(a, h, false), fb, eb && EndOf(b) != EGlobal)
    case Rel(_, _, _) => (false, false, false)
    case _ => (false, false, h)
  }

  predicate Literal(k: End) { k == ETrue || k == EFalse || k == EConst }

  /** Whether something may wait where the second operand begins. */
  predicate WaitsNext(a: Expr, h: bool, sense: bool)
    decreases a, 1
  {
    var (t, f, e) := May(a, h);
    if sense then t || (e && (EndOf(a) == ETrue || EndOf(a) == EConst)) else f || (e && EndOf(a) == EFalse)
  }

  /** Whether the last jump of the first operand, or what it takes over, may carry a value. */
  predicate LastMay(a: Expr, h: bool, sense: bool)
    decreases a, 1
  {
    var k := EndOf(a);
    if (sense && k == EFalse) || (!sense && k == ETrue) then May(a, h).2
    else if (sense && (k == ETrue || k == EConst)) || (!sense && k == EFalse) then false
    else k != ETest && k != ENot
  }

  /** No literal true or false decides a jump while a jump that waits for its position carries a value. */
  predicate Safe(x: Expr, h: bool) {
    match x
    case Negate(e) => Safe(e, h)
    case And(a, b) => Safe(a, h) && !(EndOf(a) == EFalse && May(a, h).2) && Safe(b, WaitsNext(a, h, true))
    case Or(a, b) => Safe(a, h) && !(EndOf(a) == ETrue && May(a, h).2) && Safe(b, WaitsNext(a, h, false))
    case Rel(_, a, b) =>
      Safe(a, h) && Safe(b, May(a, h).2 && Jumps(a) == (false, false) && Silent(Discharged(EndOf(a))))
    case _ => true
  }

  /** The run leaves with the value of the expression. */
  ghost predicate Good(r: Leave, v: Value, may: (bool, bool, bool), k: End) {
    match r
    case ByTrue(c) => !IsFalse(v) && (if c.Held? then c.v == v && may.0 else v == Bool(true))
    case ByFalse(c) => IsFalse(v) && (if c.Held? then c.v == v && may.1 else v == Bool(false))
    case AtEnd(w, c) =>
      && w == v && (c.Held? ==> may.2)
      && (k == ETrue ==> v == Bool(true)) && (k == EFalse ==> v == Bool(false)) && (k == EConst ==> !IsFalse(v))
      && (k == ETest || k == ENot ==> v.Bool?)
  }

  /** The jump on the value of a first operand, unless it takes over a carried value. */
  lemma JumpGood(a: Expr, h: bool, r: Leave, v: Value, sense: bool)
    requires Good(r, v, May(a, h), EndOf(a))
    requires !(EndOf(a) == (if sense then EFalse else ETrue) && May(a, h).2)
    ensures var g := JumpIf(EndOf(a), r, sense);
            if g.AtEnd? then IsFalse(v) == !sense && (g.c.Held? ==> WaitsNext(a, h, sense))
            else IsFalse(v) == sense && Final(g) == v && (sense ==> g.ByFalse?) && (!sense ==> g.ByTrue?)
                 && (g.c.Held? ==> (if sense then May(a, h).1 else May(a, h).0) || LastMay(a, h, sense))
  {
  }

  lemma {:induction false} SafeGood(env: Env, x: Expr, regs: Regs, n: nat, hold: Hold, h: bool)
    requires Safe(x, h) && Scoped(x, n) && (hold.Held? ==> h)
    ensures Good(Act(env, x, regs, hold), Eval(env, x, regs), May(x, h), EndOf(x))
    decreases x, 0
  {
    match x
    case Negate(e) => SafeGood(env, e, regs, n, hold, h);
    case And(_, _) => LogicGood(env, x, regs, n, hold, h);
    case Or(_, _) => LogicGood(env, x, regs, n, hold, h);
    case Rel(_, a, b) =>
      SafeGood(env, a, regs, n, hold, h);
      var r := Act(env, a, regs, hold);
      SafeGood(env, b, regs, n, OperandHold(a, r), May(a, h).2 && Jumps(a) == (false, false)
          && Silent(Discharged(EndOf(a))));
    case _ =>
  }

  lemma {:induction false} LogicGood(env: Env, x: Expr, regs: Regs, n: nat, hold: Hold, h: bool)
    requires (x.And? || x.Or?) && Safe(x, h) && Scoped(x, n) && (hold.Held? ==> h)
    ensures Good(Act(env, x, regs, hold), Eval(env, x, regs), May(x, h), EndOf(x))
    decreases x, 0, 0
  {
    SafeGood(env, x.a, regs, n, hold, h);
    var r := Act(env, x.a, regs, hold);
    JumpGood(x.a, h, r, Eval(env, x.a, regs), x.And?);
    var g := JumpIf(EndOf(x.a), r, x.And?);
    hide JumpIf, WaitsNext, LastMay, Good;
    LogicAct(env, x, regs, hold);
    if g.AtEnd? {
      SafeGood(env, x.b, regs, n, g.c, WaitsNext(x.a, h, x.And?));
      SecondGood(x, h, Act(env, x.b, regs, g.c), Eval(env, x.b, regs));
    } else {
      FirstGood(x, h, g, Eval(env, x.a, regs));
    }
  }

  /** The second operand decides the value. */
  lemma SecondGood(x: Expr, h: bool, s: Leave, v: Value)
    requires (x.And? || x.Or?) && Good(s, v, May(x.b, WaitsNext(x.a, h, x.And?)), EndOf(x.b))
    ensures Good(BoolAct.Loaded(EndOf(x.b), s), v, May(x, h), EndOf(x))
  {
    hide WaitsNext, LastMay;
  }

  /** The first operand decides the value. */
  lemma FirstGood(x: Expr, h: bool, g: Leave, v: Value)
    requires (x.And? || x.Or?) && !g.AtEnd? && Final(g) == v && IsFalse(v) == x.And? && (x.And? ==> g.ByFalse?)
               && (x.Or? ==> g.ByTrue?)
    requires g.c.Held? ==> (if x.And? then May(x.a, h).1 else May(x.a, h).0) || LastMay(x.a, h, x.And?)
    ensures Good(g, v, May(x, h), EndOf(x))
  {
    hide WaitsNext, LastMay;
  }

  /** The generated code computes the value of the expression whenever no literal takes over a carried value; in
      particular if jumps that carry nothing wait at a literal. */
  lemma SafeRight(env: Env, fs: Func, x: Expr, regs: Regs)
    requires FuncOK(fs) && Scoped(x, fs.nactvar) && fs.nactvar <= fs.freereg && Safe(x, false)
    ensures Left(env, fs, x, regs) == Eval(env, x, regs)
  {
    LeftIs(env, fs, x, regs);
    SafeGood(env, x, regs, fs.nactvar, Free, false);
  }

  /** No constant is an operand of and, or, not; only comparisons have constants, as in `x < 10`. */
  predicate ConstantFree(x: Expr) {
    match x
    case True => false
    case False => false
    case Const(_) => false
    case Negate(e) => ConstantFree(e)
    case And(a, b) => ConstantFree(a) && ConstantFree(b)
    case Or(a, b) => ConstantFree(a) && ConstantFree(b)
    case Rel(_, a, b) => (IsConstant(a) || ConstantFree(a)) && (IsConstant(b) || ConstantFree(b))
    case _ => true
  }

  predicate IsConstant(x: Expr) { x.True? || x.False? || x.Const? }

  /** Without constant operands nothing is ever taken over, whatever waits. */
  lemma {:induction false} ConstantFreeSafe(x: Expr, h: bool)
    requires ConstantFree(x)
    ensures Safe(x, h) && !Literal(EndOf(x))
    decreases x
  {
    match x
    case Negate(e) => ConstantFreeSafe(e, h);
    case And(a, b) =>
      ConstantFreeSafe(a, h);
      ConstantFreeSafe(b, WaitsNext(a, h, true));
    case Or(a, b) =>
      ConstantFreeSafe(a, h);
      ConstantFreeSafe(b, WaitsNext(a, h, false));
    case Rel(_, a, b) =>
      if !IsConstant(a) {
        ConstantFreeSafe(a, h);
      }
      var g := May(a, h).2 && Jumps(a) == (false, false) && Silent(Discharged(EndOf(a)));
      if !IsConstant(b) {
        ConstantFreeSafe(b, g);
      }
    case _ =>
  }

  // ---- a literal that decides

  function First(inner: bool, literal: bool, y: Expr): Expr {
    var lit := if literal then True else False;
    if inner then And(y, lit) else Or(y, lit)
  }

  /** `(y and true) or z`, `(y and false) and z`, `(y or false) and z`, `(y or true) or z`: a literal whose jump is
      always taken, met while jumps of `y` wait for its position. */
  function Decided(inner: bool, literal: bool, y: Expr, z: Expr): Expr {
    if literal then Or(First(inner, literal, y), z) else And(First(inner, literal, y), z)
  }

  lemma FirstActs(env: Env, inner: bool, literal: bool, y: Expr, regs: Regs)
    ensures var g := JumpIf(EndOf(y), Act(env, y, regs, Free), inner);
            && Act(env, First(inner, literal, y), regs, Free) == (if g.AtEnd? then AtEnd(Bool(literal), g.c) else g)
            && EndOf(First(inner, literal, y)) == if literal then ETrue else EFalse
  {
    hide JumpIf;
    var lit := if literal then True else False;
    var g := JumpIf(EndOf(y), Act(env, y, regs, Free), inner);
    assert g.AtEnd? ==> Act(env, lit, regs, g.c) == AtEnd(Bool(literal), g.c);
    assert EndOf(lit) == if literal then ETrue else EFalse;
  }

  lemma DecidedActs(env: Env, inner: bool, literal: bool, y: Expr, z: Expr, regs: Regs)
    ensures var first := First(inner, literal, y);
            var k := JumpIf(EndOf(first), Act(env, first, regs, Free), !literal);
            Act(env, Decided(inner, literal, y, z), regs, Free)
            == if k.AtEnd? then BoolAct.Loaded(EndOf(z), Act(env, z, regs, k.c)) else k
  {
    hide JumpIf, First;
  }

  /** The run through `y` ends in a jump that waits for the literal and carries a value. */
  predicate CarriesOn(env: Env, inner: bool, y: Expr, regs: Regs) {
    var r := Act(env, y, regs, Free);
    if inner then r.ByTrue? && r.c.Held? else r.ByFalse? && r.c.Held?
  }

  /** What the code of such an expression computes: a value carried by a waiting jump wins over the literal. */
  lemma DecidedComputes(env: Env, inner: bool, literal: bool, y: Expr, z: Expr, regs: Regs, n: nat)
    requires ConstantFree(y) && ConstantFree(z) && Scoped(y, n) && Scoped(z, n)
    ensures var x := Decided(inner, literal, y, z);
            Computed(env, x, regs) == if CarriesOn(env, inner, y, regs) then Eval(env, y, regs) else Eval(env, x, regs)
  {
    var r, v := Act(env, y, regs, Free), Eval(env, y, regs);
    FirstActs(env, inner, literal, y, regs);
    DecidedActs(env, inner, literal, y, z, regs);
    DecidedEval(env, inner, literal, y, z, regs);
    EndGood(env, y, regs, n);
    hide Act, Eval, EndOf, First, Decided, Good, JumpIf;
    var first := First(inner, literal, y);
    var k := JumpIf(EndOf(first), Act(env, first, regs, Free), !literal);
    DecidedLeaves(inner, literal, EndOf(y), r, v);
    if k.AtEnd? {
      ConstantFreeSafe(z, true);
      SafeGood(env, z, regs, n, k.c, true);
      GoodFinal(Act(env, z, regs, k.c), Eval(env, z, regs), May(z, true), EndOf(z));
    }
  }

  /** The two jumps, on a run through `y` that leaves with its value. */
  lemma DecidedLeaves(inner: bool, literal: bool, k: End, r: Leave, v: Value)
    requires !Literal(k) && (r.AtEnd? ==> r.v == v)
    requires (r.ByTrue? ==> !IsFalse(v) && Final(r) == v) && (r.ByFalse? ==> IsFalse(v) && Final(r) == v)
    requires r.AtEnd? && (k == ETest || k == ENot) ==> v.Bool?
    ensures var g := JumpIf(k, r, inner);
            var s := if g.AtEnd? then AtEnd(Bool(literal), g.c) else g;
            var l := JumpIf(if literal then ETrue else EFalse, s, !literal);
            var carries := if inner then r.ByTrue? && r.c.Held? else r.ByFalse? && r.c.Held?;
            && (l.AtEnd? <==> IsFalse(v) == inner && IsFalse(v) == literal)
            && (!l.AtEnd? ==> Final(l) == if carries then v else if IsFalse(v) == !inner then Bool(literal) else v)
            && (carries ==> !l.AtEnd?)
  {
  }

  lemma FirstEval(env: Env, inner: bool, literal: bool, y: Expr, regs: Regs)
    ensures var v := Eval(env, y, regs);
            Eval(env, First(inner, literal, y), regs) == if IsFalse(v) == !inner then Bool(literal) else v
  {
    var lit := if literal then True else False;
    assert Eval(env, lit, regs) == Bool(literal);
  }

  lemma DecidedEval(env: Env, inner: bool, literal: bool, y: Expr, z: Expr, regs: Regs)
    ensures var v := Eval(env, y, regs);
            Eval(env, Decided(inner, literal, y, z), regs)
            == if IsFalse(v) == !inner then Bool(literal)
               else if IsFalse(v) == literal then Eval(env, z, regs) else v
  {
    hide First;
    FirstEval(env, inner, literal, y, regs);
  }

  lemma GoodFinal(r: Leave, v: Value, may: (bool, bool, bool), k: End)
    requires Good(r, v, may, k)
    ensures Final(r) == v && Final(BoolAct.Loaded(k, r)) == v
  {
  }

  /** At the end of constant-free code nothing waits that carries a value past the jump on it. */
  lemma EndGood(env: Env, y: Expr, regs: Regs, n: nat)
    requires ConstantFree(y) && Scoped(y, n)
    ensures var r, v := Act(env, y, regs, Free), Eval(env, y, regs);
            && !Literal(EndOf(y))
            && (r.ByTrue? ==> !IsFalse(v) && Final(r) == v) && (r.ByFalse? ==> IsFalse(v) && Final(r) == v)
            && (r.AtEnd? ==> r.v == v) && (EndOf(y) == ETest || EndOf(y) == ENot ==> r.AtEnd? ==> v.Bool?)
  {
    ConstantFreeSafe(y, false);
    SafeGood(env, y, regs, n, Free, false);
  }

  /** The four other shapes, `(y and true) and z`, `(y and false) or z`, `(y or false) or z` and `(y or true) and z`,
      whose literal never jumps, are right. */
  lemma PassedSafe(inner: bool, literal: bool, y: Expr, z: Expr, h: bool)
    requires ConstantFree(y) && ConstantFree(z)
    ensures Safe(if literal then And(First(inner, literal, y), z) else Or(First(inner, literal, y), z), h)
  {
    FirstSafe(inner, literal, y, h);
    hide First, May;
    ConstantFreeSafe(z, WaitsNext(First(inner, literal, y), h, literal));
  }

  lemma FirstSafe(inner: bool, literal: bool, y: Expr, h: bool)
    requires ConstantFree(y)
    ensures Safe(First(inner, literal, y), h) && EndOf(First(inner, literal, y)) == if literal then ETrue else EFalse
  {
    hide May;
    ConstantFreeSafe(y, h);
  }
}
