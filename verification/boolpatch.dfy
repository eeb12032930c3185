/** The generator's in-place form: the function state, and descriptors with the heads of threaded lists (lcode.cc). */
module BoolPatch {
  import opened BoolVm
  import opened BoolCode
  import opened BoolThreads
  import opened BoolNeat
  import opened BoolRuns
  import opened BoolAct
  import BoolSound

  class FuncState {
    var code: seq<Instr>
    var jpc: int
    var freereg: int
    var nactvar: nat

    /** A function without code yet, whose variables are in the first registers. */
    constructor (nactvar: nat)
      ensures Represents(Func([], [], nactvar, nactvar))
    {
      code, jpc, freereg, this.nactvar := [], NO_JUMP, nactvar, nactvar;
    }

    /** The jumps that wait for the current position are aimed at it. */
    method DischargeHere(ghost fs: Func)
      requires Represents(fs)
      modifies this`code, this`jpc
      ensures Aligned(code, View(fs)) && jpc == NO_JUMP
      ensures JumpsKept(old(code), code, fs.jpc)
    {
      PatchListAux(jpc, |code|, NO_REG, |code|, fs.jpc, fs.code);
      jpc := NO_JUMP;
    }

    function GetJump(pc: int): int
      reads this
      requires 0 <= pc < |code| && code[pc].Jmp?
    {
      if code[pc].dest == NO_JUMP then NO_JUMP else pc + 1 + code[pc].dest
    }

    lemma GetJumpFollows(list: seq<int>)
      requires list != [] && Threads(code, list[0], list)
      ensures GetJump(list[0]) == if |list| == 1 then NO_JUMP else list[1]
    {
      assert Linked(code, list, 0);
      assert |list| > 1 ==> list[0] != list[1];
    }

    method FixJump(pc: int, dest: int)
      requires 0 <= pc < |code|
      modifies this`code
      ensures code == old(code)[pc := Jmp(Offset(pc, dest))]
    {
      code := code[pc := Jmp(dest - (pc + 1))];
    }

    /** Whether some jump of the list has no value to deliver. */
    method NeedsValue(head: int, ghost list: seq<int>, ghost model: seq<Instr>) returns (need: bool)
      requires Threads(code, head, list) && Aligned(code, model)
      ensures need <==> NeedValue(model, list)
    {
      var cur := head;
      ghost var n := 0;
      while cur != NO_JUMP
        invariant 0 <= n <= |list| && Threads(code, cur, list[n..])
        invariant forall k :: 0 <= k < n ==> Carries(model, list[k])
        decreases |list| - n
      {
        ControlAligned(code, model, cur);
        if !code[Control(code, cur)].TestSet? {
          assert list[n] in list && !Carries(model, list[n]);
          return true;
        }
        GetJumpFollows(list[n..]);
        ThreadsTail(code, cur, list[n..]);
        assert list[n..][1..] == list[n + 1..];
        cur := GetJump(cur);
        n := n + 1;
      }
      return false;
    }

    /** Settles the test of one jump; false when that test carries no value. */
    method PatchTestReg(node: int, reg: int) returns (carries: bool)
      requires 0 <= node < |code| && code[node].Jmp?
      modifies this`code
      ensures carries <==> Carries(old(code), node)
      ensures code == if carries then old(code)[node - 1 := Settle(old(code)[node - 1], reg)] else old(code)
    {
      var i := Control(code, node);
      if !code[i].TestSet? {
        return false;
      }
      if reg != NO_REG && reg != code[i].b {
        code := code[i := TestSet(reg, code[i].b, code[i].c)];
      } else {
        code := code[i := Test(code[i].b, code[i].c)];
      }
      return true;
    }

    /** Aims every jump of a list, following the links while overwriting them. */
    method PatchListAux(head: int, vtarget: int, reg: int, dtarget: int, ghost list: seq<int>, ghost model: seq<Instr>)
      requires Threads(code, head, list) && Aligned(code, model)
      requires vtarget != PENDING && (dtarget == PENDING ==> forall j :: j in list ==> Carries(model, j))
      modifies this`code
      ensures Aligned(code, Patch(model, list, vtarget, reg, dtarget))
      ensures JumpsKept(old(code), code, list)
    {
      hide Patch, Aligned, Patching, JumpsKept, Threads;
      SameLength(code, model);
      ListDistinct(code, head, list);
      forall d | d in list ensures 0 <= d < |model| && model[d].Jmp? {
        ListJumps(code, model, head, list, d);
      }
      var cur := head;
      ghost var n := 0;
      PatchStart(code, model, head, list, vtarget, reg, dtarget);
      PatchingAt(code, code, model, list, n, cur, vtarget, reg, dtarget);
      while cur != NO_JUMP
        invariant Patching(old(code), code, model, list, n, cur, vtarget, reg, dtarget) && 0 <= n <= |list|
        invariant cur == NO_JUMP ==> n == |list|
        decreases |list| - n
      {
        ghost var before := code;
        PatchingAt(old(code), code, model, list, n, cur, vtarget, reg, dtarget);
        GetJumpFollows(list[n..]);
        var next := GetJump(cur);
        var carries := PatchTestReg(cur, reg);
        if carries {
          FixJump(cur, vtarget);
        } else {
          FixJump(cur, dtarget);
        }
        PatchStep(old(code), before, code, model, list, n, cur, vtarget, reg, dtarget);
        cur := next;
        n := n + 1;
        PatchingAt(old(code), code, model, list, n, cur, vtarget, reg, dtarget);
      }
      PatchingAt(old(code), code, model, list, n, cur, vtarget, reg, dtarget);
    }

    /** Aims the current-position jumps at the next instruction and adds it. */
    method Code(ins: Instr, ghost fs: Func)
      requires Represents(fs) && (ins.Jmp? ==> ins.dest == PENDING)
      modifies this
      ensures Represents(Emit(fs, ins))
      ensures JumpsKept(old(code), code, fs.jpc)
    {
      DischargeHere(fs);
      ghost var before := code;
      code := code + [ins];
      AlignedAppend(before, View(fs), ins);
    }

    /** The last jump of a list. */
    method Last(head: int, ghost list: seq<int>) returns (last: int)
      requires Threads(code, head, list) && list != []
      ensures last == list[|list| - 1]
    {
      last := head;
      ghost var n := 0;
      assert list[0..] == list;
      GetJumpFollows(list);
      var next := GetJump(last);
      while next != NO_JUMP
        invariant 0 <= n < |list| && last == list[n] && next == (if n + 1 == |list| then NO_JUMP else list[n + 1])
        decreases |list| - n
      {
        n := n + 1;
        last := next;
        ThreadsDrop(code, head, list, n);
        GetJumpFollows(list[n..]);
        next := GetJump(last);
      }
    }

    /** Appends `tail` to the list `head`; only the last link of `head` changes. */
    method Concat(head: int, tail: int, ghost first: seq<int>, ghost second: seq<int>, ghost model: seq<Instr>)
      returns (both: int)
      requires Threads(code, head, first) && Threads(code, tail, second) && Aligned(code, model)
      requires forall j :: j in first ==> 0 <= j < |model| && model[j] == Jmp(PENDING) && j !in second
      modifies this`code
      ensures Threads(code, both, first + second) && Aligned(code, model)
      ensures |code| == |old(code)| && forall i :: 0 <= i < |code| && i !in first ==> code[i] == old(code)[i]
    {
      if tail == NO_JUMP {
        assert first + second == first;
        return head;
      } else if head == NO_JUMP {
        assert first + second == second;
        return tail;
      }
      var last := Last(head, first);
      assert first[|first| - 1] in first;
      ghost var before := code;
      FixJump(last, tail);
      ConcatThreads(before, code, head, tail, first, second);
      AlignedLink(before, code, model, last, Offset(last, tail));
      return head;
    }

    /** A new jump; the list it starts also holds the jumps that waited for its position. */
    method Jump(ghost fs: Func) returns (j: int, ghost list: seq<int>)
      requires Represents(fs)
      modifies this
      ensures var (fs1, l) := BoolCode.Jump(fs); list == l && Represents(fs1)
      ensures Threads(code, j, list)
      ensures |code| == |old(code)| + 1 && code[..|old(code)|] == old(code)
    {
      var here := jpc;
      ghost var before := code;
      jpc := NO_JUMP;
      j := |code|;
      code := code + [Jmp(NO_JUMP)];
      AlignedAppend(before, fs.code, Jmp(PENDING));
      ghost var started := code;
      assert Threads(code, j, [j]);
      ThreadsKeep(before, started, here, fs.jpc);
      forall k | k in fs.jpc ensures k != j {
      }
      assert forall k :: k in [j] ==> k == j;
      j := Concat(j, here, [j], fs.jpc, fs.code + [Jmp(PENDING)]);
      list := [|fs.code|] + fs.jpc;
      assert forall i :: 0 <= i < |before| ==> started[i] == before[i];
    }

    /** The list joins the jumps that wait for the current position. */
    method PatchToHere(head: int, ghost list: seq<int>, ghost fs: Func)
      requires Represents(fs) && Threads(code, head, list)
      requires forall j :: j in fs.jpc ==> 0 <= j < |fs.code| && fs.code[j] == Jmp(PENDING) && j !in list
      modifies this
      ensures Represents(BoolCode.PatchToHere(fs, list))
      ensures |code| == |old(code)| && forall i :: 0 <= i < |code| && i !in fs.jpc ==> code[i] == old(code)[i]
    {
      jpc := Concat(jpc, head, fs.jpc, list, fs.code);
    }

    /** Turns the value-carrying tests of a list into plain ones. */
    method RemoveValues(head: int, ghost list: seq<int>, ghost model: seq<Instr>)
      requires Threads(code, head, list) && Aligned(code, model)
      modifies this`code
      ensures Aligned(code, BoolCode.RemoveValues(model, list))
      ensures JumpsKept(old(code), code, [])
    {
      var cur := head;
      ghost var n := 0;
      StripNone(model);
      assert list[..0] == [] && list[0..] == list;
      while cur != NO_JUMP
        invariant Stripping(old(code), code, model, list, n, cur)
        decreases |list| - n
      {
        ghost var before := code;
        GetJumpFollows(list[n..]);
        var next := GetJump(cur);
        var _ := PatchTestReg(cur, NO_REG);
        StripStep(old(code), before, code, model, list, n, cur);
        cur := next;
        n := n + 1;
      }
      assert list[..n] == list;
    }

    ghost predicate Represents(fs: Func)
      reads this
    {
      Aligned(code, fs.code) && Threads(code, jpc, fs.jpc) && freereg == fs.freereg && nactvar == fs.nactvar
    }

    // ---- descriptors

    /** Function state and descriptor stand for `fs` and `e`, whose lists are in order. */
    ghost predicate State(fs: Func, e: Exp, d: Desc)
      reads this
    {
      Represents(fs) && Holds(code, e, d) && Neat(fs, e)
    }

    /** An instruction that is no jump, behind whatever waits for its position. */
    method CodeFor(ins: Instr, k: Kind, d: Desc, ghost fs: Func, ghost e: Exp) returns (d1: Desc)
      requires State(fs, e, d) && !ins.Jmp? && !e.k.VJmp? && !k.VJmp?
      requires k.VReloc? ==> k.pc == |fs.code| && (ins.GetGlobal? || ins.Not?)
      modifies this
      ensures State(Emit(fs, ins), e.(k := k), d1) && d1 == d.(k := k)
      ensures JumpsKept(old(code), code, fs.jpc)
    {
      hide Emit, Aligned, Threads, JumpsKept;
      Code(ins, fs);
      HoldsKept(old(code), code, e, d, fs.jpc);
      EmitNeat(fs, e, ins, k);
      d1 := d.(k := k);
    }

    method DischargeVars(d: Desc, ghost fs: Func, ghost e: Exp) returns (d1: Desc)
      requires State(fs, e, d)
      modifies this
      ensures var (fs1, e1) := BoolCode.DischargeVars(fs, e); State(fs1, e1, d1)
      ensures JumpsKept(old(code), code, fs.jpc)
    {
      hide Aligned, Threads, Emit, Neat;
      DischargeNeat(fs, e);
      match d.k
      case VLocal(r) => d1 := d.(k := VNonReloc(r));
      case VGlobal(g) =>
        SameLength(code, fs.code);
        d1 := CodeFor(GetGlobal(0, g), VReloc(|code|), d, fs, e);
      case _ => d1 := d;
    }

    method Discharge2Reg(d: Desc, reg: int, ghost fs: Func, ghost e: Exp) returns (d1: Desc)
      requires State(fs, e, d)
      modifies this
      ensures var (fs1, e1) := BoolCode.Discharge2Reg(fs, e, reg); State(fs1, e1, d1)
      ensures JumpsKept(old(code), code, fs.jpc)
    {
      hide Aligned, Threads, Emit, Neat, JumpsKept, Holds;
      Discharge2RegNeat(fs, e, reg);
      d1 := DischargeVars(d, fs, e);
      ghost var (fs1, e1) := BoolCode.DischargeVars(fs, e);
      ghost var middle := code;
      DischargeJpc(fs, e);
      HoldsKind(code, e1, d1);
      match d1.k {
        case VFalse => d1 := CodeFor(LoadBool(reg, false, false), VNonReloc(reg), d1, fs1, e1);
        case VTrue => d1 := CodeFor(LoadBool(reg, true, false), VNonReloc(reg), d1, fs1, e1);
        case VK(v) => d1 := CodeFor(LoadK(reg, v), VNonReloc(reg), d1, fs1, e1);
        case VReloc(pc) => d1 := SetRegister(d1, reg, fs1, e1);
        case VNonReloc(r) =>
          if r != reg {
            d1 := CodeFor(Move(reg, r), VNonReloc(reg), d1, fs1, e1);
          } else {
            KeptSame(code, fs1.jpc);
          }
        case _ => KeptSame(code, fs1.jpc);
      }
      KeptTrans(old(code), middle, code, fs.jpc, fs1.jpc);
    }

    /** The instruction at the end gets its register. */
    method SetRegister(d: Desc, reg: int, ghost fs: Func, ghost e: Exp) returns (d1: Desc)
      requires State(fs, e, d) && e.k.VReloc?
      modifies this`code
      ensures 0 <= e.k.pc < |fs.code|
      ensures State(fs.(code := fs.code[e.k.pc := SetA(fs.code[e.k.pc], reg)]), e.(k := VNonReloc(reg)), d1)
      ensures JumpsKept(old(code), code, fs.jpc)
    {
      hide Aligned, Threads;
      var pc := d.k.pc;
      SameLength(code, fs.code);
      AlignedSetA(code, fs.code, pc, reg);
      SetANeat(fs, e, reg);
      code := code[pc := SetA(code[pc], reg)];
      HoldsKept(old(code), code, e, d, []);
      ThreadsKept(old(code), code, jpc, fs.jpc, []);
      d1 := d.(k := VNonReloc(reg));
    }

    method ReserveRegs(n: nat, d: Desc, ghost fs: Func, ghost e: Exp)
      requires State(fs, e, d)
      modifies this`freereg
      ensures State(BoolCode.ReserveRegs(fs, n), e, d)
    {
      freereg := freereg + n;
    }

    method FreeExp(d: Desc, ghost fs: Func, ghost e: Exp)
      requires Represents(fs) && d.k == e.k
      modifies this`freereg
      ensures Represents(BoolCode.FreeExp(fs, e))
    {
      if d.k.VNonReloc? && d.k.r >= nactvar {
        freereg := freereg - 1;
      }
    }

    method Discharge2AnyReg(d: Desc, ghost fs: Func, ghost e: Exp) returns (d1: Desc)
      requires State(fs, e, d)
      modifies this
      ensures var (fs1, e1) := BoolCode.Discharge2AnyReg(fs, e); State(fs1, e1, d1)
      ensures JumpsKept(old(code), code, fs.jpc)
    {
      hide Aligned, Threads, Neat, BoolCode.Discharge2Reg;
      if d.k.VNonReloc? {
        d1 := d;
      } else {
        var reg := freereg;
        ReserveRegs(1, d, fs, e);
        d1 := Discharge2Reg(d, reg, BoolCode.ReserveRegs(fs, 1), e);
      }
    }

    /** A test and its jump; the lists of the descriptor stay threaded. */
    method CondJump(ins: Instr, ghost fs: Func, ghost e: Exp, d: Desc) returns (j: int)
      requires Represents(fs) && Threads(code, d.t, e.t) && Threads(code, d.f, e.f) && Neat(fs, e)
      requires !ins.Jmp? && !e.k.VJmp?
      modifies this
      ensures var (fs1, pc) := BoolCode.CondJump(fs, ins);
              && Represents(fs1) && Threads(code, j, pc) && pc == [|fs.code| + 1]
              && Threads(code, d.t, e.t) && Threads(code, d.f, e.f)
      ensures JumpsKept(old(code), code, fs.jpc)
    {
      hide Aligned, Emit, Threads;
      CondJumpNeat(fs, e, ins);
      Code(ins, fs);
      ghost var middle := code;
      ghost var list;
      j, list := Jump(Emit(fs, ins));
      AppendKept(middle, code);
      KeptTrans(old(code), middle, code, fs.jpc, []);
      ThreadsKept(old(code), code, d.t, e.t, fs.jpc);
      ThreadsKept(old(code), code, d.f, e.f, fs.jpc);
    }

    /** The current-position list and the two lists of a descriptor, after a jump on its value. */
    ghost predicate Open(fs: Func, e: Exp, d: Desc)
      reads this
    {
      && Represents(fs) && Threads(code, d.t, e.t) && Threads(code, d.f, e.f) && d.k == e.k
      && Neat(fs, e.(k := VTrue))
    }

    method JumpOnNot(d: Desc, cond: bool, ghost fs: Func, ghost e: Exp) returns (j: int)
      requires State(fs, e, d) && e.k.VReloc? && fs.code[e.k.pc].Not?
      modifies this
      ensures var (fs1, pc) := BoolCode.JumpOnCond(fs, e, cond);
              && Represents(fs1) && Threads(code, j, pc) && Threads(code, d.t, e.t) && Threads(code, d.f, e.f)
      ensures JumpsKept(old(code), code, fs.jpc)
    {
      RelocCode(code, fs, e);
      hide Aligned, Threads, Neat, BoolCode.CondJump;
      var operand := code[d.k.pc].b;
      ghost var fs1 := fs.(code := fs.code[..|fs.code| - 1]);
      CutNeat(code, fs, e, d);
      code := code[..|code| - 1];
      ghost var middle := code;
      j := CondJump(Test(operand, !cond), fs1, e.(k := VTrue), d);
      CutKept(old(code), code, fs.jpc);
    }

    /** Drops a negation at the end of the code, or takes the value from its register, and jumps on it. */
    method JumpOnCond(d: Desc, cond: bool, ghost fs: Func, ghost e: Exp) returns (j: int)
      requires State(fs, e, d) && (e.k.VReloc? || e.k.VNonReloc? || e.k.VK?)
      modifies this
      ensures var (fs1, pc) := BoolCode.JumpOnCond(fs, e, cond);
              && Represents(fs1) && Threads(code, j, pc) && Threads(code, d.t, e.t) && Threads(code, d.f, e.f)
      ensures JumpsKept(old(code), code, fs.jpc)
    {
      RelocCode(code, fs, e);
      if d.k.VReloc? && code[d.k.pc].Not? {
        j := JumpOnNot(d, cond, fs, e);
      } else {
        hide Aligned, Threads, Neat, BoolCode.Discharge2AnyReg, BoolCode.CondJump;
        var d1 := Discharge2AnyReg(d, fs, e);
        ghost var (fs1, e1) := BoolCode.Discharge2AnyReg(fs, e);
        ghost var middle := code;
        AnyRegKind(fs, e);
        FreeExp(d1, fs1, e1);
        NeatFreed(fs1, e1);
        j := CondJump(TestSet(NO_REG, d1.k.r, cond), BoolCode.FreeExp(fs1, e1), e1, d1);
        KeptTrans(old(code), middle, code, fs.jpc, fs1.jpc);
      }
    }

    /** Puts the jump list `tail` behind the list of one sense. */
    method Joined(head: int, tail: int, ghost first: seq<int>, ghost second: seq<int>, ghost fs: Func)
      returns (both: int)
      requires Represents(fs) && Threads(code, head, first) && Threads(code, tail, second)
      requires forall j :: j in first ==> Pending(fs.code, j) && j !in second && j !in fs.jpc
      modifies this`code
      ensures Represents(fs) && Threads(code, both, first + second)
      ensures JumpsKept(old(code), code, first)
    {
      hide Aligned, Threads;
      both := Concat(head, tail, first, second, fs.code);
      KeptBut(old(code), code, first);
      ThreadsKept(old(code), code, jpc, fs.jpc, first);
    }

    /** The exits after a jump on the value: the jump joins the list of its sense, the other list joins the current
        position. */
    method Split(d: Desc, j: int, cond: bool, ghost pc: seq<int>, ghost fs: Func, ghost e: Exp) returns (d1: Desc)
      requires Represents(fs) && Threads(code, j, pc) && Threads(code, d.t, e.t) && Threads(code, d.f, e.f)
                 && d.k == e.k
      requires Neat(fs, Exp(VTrue, e.t, e.f))
      requires forall i :: i in pc ==> Pending(fs.code, i) && i !in e.t && i !in e.f && i !in fs.jpc
      modifies this
      ensures var own, other := if cond then e.t else e.f, if cond then e.f else e.t;
              && Open(BoolCode.PatchToHere(fs, other), Exp(e.k, if cond then own + pc else [],
                   if cond then [] else own + pc), d1)
              && d1.k == d.k
      ensures JumpsKept(old(code), code, fs.jpc + e.t + e.f)
    {
      hide Aligned, Threads, JumpsKept;
      ghost var own, other := if cond then e.t else e.f, if cond then e.f else e.t;
      var ownHead, otherHead := if cond then d.t else d.f, if cond then d.f else d.t;
      var both := Joined(ownHead, j, own, pc, fs);
      ghost var middle := code;
      ThreadsKept(old(code), middle, otherHead, other, own);
      PatchToHere(otherHead, other, fs);
      KeptBut(middle, code, fs.jpc);
      ThreadsKept(middle, code, both, own + pc, fs.jpc);
      KeptMore(old(code), middle, own, fs.jpc + e.t + e.f);
      KeptTrans(old(code), middle, code, fs.jpc + e.t + e.f, fs.jpc);
      NoThreads(code);
      d1 := if cond then Desc(d.k, both, NO_JUMP) else Desc(d.k, NO_JUMP, both);
      SplitNeat(fs, e, own, other, pc, cond);
    }

    method InvertJump(d: Desc, ghost fs: Func, ghost e: Exp)
      requires State(fs, e, d) && e.k.VJmp?
      modifies this`code
      ensures State(BoolCode.InvertJump(fs, e), e, d)
      ensures JumpsKept(old(code), code, [])
    {
      var pc := d.k.pc;
      SameLength(code, fs.code);
      AlignedTurn(code, fs.code, pc);
      code := code[pc - 1 := code[pc - 1].(cond := !code[pc - 1].cond)];
      TurnNeat(fs, e);
      hide Aligned, Threads, JumpsKept;
      HoldsKept(old(code), code, e, d, []);
      ThreadsKept(old(code), code, jpc, fs.jpc, []);
    }

    /** The jump on the value of a discharged descriptor, still apart from its lists. */
    method JumpOnValue(d: Desc, cond: bool, ghost fs: Func, ghost e: Exp)
      returns (j: int, ghost fs1: Func, ghost pc: seq<int>)
      requires State(fs, e, d) && !e.k.VLocal? && !e.k.VGlobal?
      modifies this
      ensures (fs1, pc) == Going(fs, e, cond)
      ensures Represents(fs1) && Threads(code, j, pc) && Threads(code, d.t, e.t) && Threads(code, d.f, e.f)
      ensures JumpsKept(old(code), code, Mine(fs, e))
    {
      hide Aligned, Threads, Neat, JumpsKept, BoolCode.JumpOnCond, BoolCode.InvertJump;
      fs1, pc := Going(fs, e, cond).0, Going(fs, e, cond).1;
      if d.k.VJmp? {
        j := d.k.pc;
        if cond {
          KeptSame(code, Mine(fs, e));
        } else {
          InvertJump(d, fs, e);
          KeptMore(old(code), code, [], Mine(fs, e));
        }
      } else if if cond then d.k.VFalse? else d.k.VTrue? || d.k.VK? {
        j := NO_JUMP;
        NoThreads(code);
        KeptSame(code, Mine(fs, e));
      } else if d.k.VTrue? || d.k.VFalse? {
        j := LiteralJump(d, fs, e);
      } else {
        j := JumpOnCond(d, cond, fs, e);
        KeptMore(old(code), code, fs.jpc, Mine(fs, e));
      }
    }

    /** An unconditional jump, which takes over the jumps that wait for its position. */
    method LiteralJump(d: Desc, ghost fs: Func, ghost e: Exp) returns (j: int)
      requires State(fs, e, d) && !e.k.VJmp?
      modifies this
      ensures var (fs1, pc) := BoolCode.Jump(fs);
              Represents(fs1) && Threads(code, j, pc) && Threads(code, d.t, e.t) && Threads(code, d.f, e.f)
      ensures JumpsKept(old(code), code, Mine(fs, e))
    {
      hide Aligned, Threads;
      ghost var list;
      j, list := Jump(fs);
      AppendKept(old(code), code);
      ThreadsKept(old(code), code, d.t, e.t, []);
      ThreadsKept(old(code), code, d.f, e.f, []);
      KeptMore(old(code), code, [], Mine(fs, e));
    }

    method GoIfTrue(d: Desc, ghost fs: Func, ghost e: Exp) returns (d1: Desc)
      requires State(fs, e, d)
      modifies this
      ensures var (fs1, e1) := BoolCode.GoIfTrue(fs, e); Open(fs1, e1, d1)
      ensures JumpsKept(old(code), code, Mine(fs, e))
    {
      d1 := GoIf(d, false, fs, e);
    }

    method GoIfFalse(d: Desc, ghost fs: Func, ghost e: Exp) returns (d1: Desc)
      requires State(fs, e, d)
      modifies this
      ensures var (fs1, e1) := BoolCode.GoIfFalse(fs, e); Open(fs1, e1, d1)
      ensures JumpsKept(old(code), code, Mine(fs, e))
    {
      d1 := GoIf(d, true, fs, e);
    }

    method GoIf(d: Desc, cond: bool, ghost fs: Func, ghost e: Exp) returns (d1: Desc)
      requires State(fs, e, d)
      modifies this
      ensures var (fs1, e1) := if cond then BoolCode.GoIfFalse(fs, e) else BoolCode.GoIfTrue(fs, e); Open(fs1, e1, d1)
      ensures JumpsKept(old(code), code, Mine(fs, e))
    {
      hide Aligned, Threads, Neat, JumpsKept, Going, BoolCode.DischargeVars;
      d1 := DischargeVars(d, fs, e);
      ghost var (fs1, e1) := BoolCode.DischargeVars(fs, e);
      ghost var middle := code;
      DischargedIs(fs, e);
      GoingNeat(fs1, e1, cond);
      var j;
      ghost var fs2, pc;
      j, fs2, pc := JumpOnValue(d1, cond, fs1, e1);
      ghost var later := code;
      d1 := Split(d1, j, cond, pc, fs2, e1);
      KeptMore(old(code), middle, fs.jpc, Mine(fs, e));
      KeptTrans(old(code), middle, later, Mine(fs, e), Mine(fs1, e1));
      KeptTrans(old(code), later, code, Mine(fs, e), fs2.jpc + e1.t + e1.f);
      GoIfIs(fs, e, cond);
    }

    // ---- giving an expression a register

    method CodeNot(d: Desc, ghost fs: Func, ghost e: Exp) returns (d1: Desc)
      requires State(fs, e, d)
      modifies this
      ensures var (fs1, e1) := BoolCode.CodeNot(fs, e); Represents(fs1) && Holds(code, e1, d1)
      ensures JumpsKept(old(code), code, fs.jpc)
    {
      hide Aligned, Threads, JumpsKept, BoolCode.DischargeVars, Holds, Neat;
      d1 := DischargeVars(d, fs, e);
      ghost var (fs1, e1) := BoolCode.DischargeVars(fs, e);
      ghost var middle := code;
      DischargedIs(fs, e);
      ghost var fs2, k;
      d1, fs2, k := NotValue(d1, fs1, e1);
      ghost var later := code;
      KeptTrans(old(code), middle, later, fs.jpc, fs1.jpc);
      NotIs(fs, e);
      d1 := RemoveBoth(d1, fs2, e1.(k := k));
      KeptTrans(old(code), later, code, fs.jpc, []);
    }

    /** The negated value, before the lists change places. */
    method NotValue(d: Desc, ghost fs: Func, ghost e: Exp) returns (d1: Desc, ghost fs1: Func, ghost k: Kind)
      requires State(fs, e, d) && !e.k.VLocal? && !e.k.VGlobal?
      modifies this
      ensures (fs1, k) == Noted(fs, e)
      ensures Represents(fs1) && Holds(code, e.(k := k), d1)
      ensures JumpsKept(old(code), code, fs.jpc)
    {
      hide Aligned, Threads, JumpsKept, Neat;
      fs1, k := Noted(fs, e).0, Noted(fs, e).1;
      if d.k.VJmp? {
        InvertJump(d, fs, e);
        KeptMore(old(code), code, [], fs.jpc);
        d1 := d;
      } else if d.k.VReloc? || d.k.VNonReloc? {
        d1 := NotRegister(d, fs, e);
      } else {
        KeptSame(code, fs.jpc);
        d1 := d.(k := if d.k.VFalse? then VTrue else VFalse);
      }
    }

    method NotRegister(d: Desc, ghost fs: Func, ghost e: Exp) returns (d1: Desc)
      requires State(fs, e, d) && (e.k.VReloc? || e.k.VNonReloc?)
      modifies this
      ensures var (fs1, k) := Noted(fs, e); Represents(fs1) && Holds(code, e.(k := k), d1)
      ensures JumpsKept(old(code), code, fs.jpc)
    {
      hide Aligned, Threads, JumpsKept, Neat, BoolCode.Discharge2AnyReg, Emit;
      d1 := Discharge2AnyReg(d, fs, e);
      ghost var (fs1, e1) := BoolCode.Discharge2AnyReg(fs, e);
      ghost var middle := code;
      AnyRegKind(fs, e);
      FreeExp(d1, fs1, e1);
      NeatFreed(fs1, e1);
      ghost var fs2 := BoolCode.FreeExp(fs1, e1);
      SameLength(code, fs2.code);
      d1 := CodeFor(Not(0, d1.k.r), VReloc(|code|), d1, fs2, e1);
      KeptTrans(old(code), middle, code, fs.jpc, fs2.jpc);
    }

    /** True and false list change places and lose their values. */
    method RemoveBoth(d: Desc, ghost fs: Func, ghost e: Exp) returns (d1: Desc)
      requires Represents(fs) && Holds(code, e, d)
      modifies this`code
      ensures Represents(fs.(code := BoolCode.RemoveValues(BoolCode.RemoveValues(fs.code, e.t), e.f)))
      ensures Holds(code, Exp(e.k, e.f, e.t), d1) && d1.k == d.k
      ensures JumpsKept(old(code), code, [])
    {
      hide Aligned, Threads, JumpsKept, BoolCode.RemoveValues;
      d1 := Desc(d.k, d.f, d.t);
      RemoveValues(d1.f, e.t, fs.code);
      ghost var middle := code;
      HoldsKept(old(code), middle, e, d, []);
      ThreadsKept(old(code), middle, jpc, fs.jpc, []);
      RemoveValues(d1.t, e.f, BoolCode.RemoveValues(fs.code, e.t));
      HoldsKept(middle, code, e, d, []);
      ThreadsKept(middle, code, jpc, fs.jpc, []);
      KeptTrans(old(code), middle, code, [], []);
    }

    /** The two boolean loads that jumps without a value need; a value at the end jumps over them. */
    method LoadLabels(isJump: bool, reg: int, t: int, f: int, ghost fs: Func, ghost e: Exp) returns (pF: int, pT: int)
      requires Represents(fs) && Threads(code, t, e.t) && Threads(code, f, e.f) && Neat(fs, Exp(VTrue, e.t, e.f))
      modifies this
      ensures var (fs1, lF, lT) := BoolCode.LoadLabels(fs, reg, isJump);
              && Represents(fs1) && pF == lF && pT == lT && pF != PENDING && pT != PENDING
              && Threads(code, t, e.t) && Threads(code, f, e.f) && Neat(fs1, Exp(VTrue, e.t, e.f))
      ensures JumpsKept(old(code), code, fs.jpc)
    {
      hide Aligned, Threads, JumpsKept, Emit, Neat;
      LoadLabelsNeat(fs, e, reg, isJump);
      ghost var fs1, fj := if isJump then fs else BoolCode.Jump(fs).0, if isJump then [] else BoolCode.Jump(fs).1;
      var j := NO_JUMP;
      NoThreads(code);
      if !isJump {
        j, fj := Jump(fs);
        AppendKept(old(code), code);
      } else {
        KeptSame(code, []);
      }
      ghost var one := code;
      SameLength(code, fs1.code);
      pF := |code|;
      Code(LoadBool(reg, false, true), fs1);
      ghost var two := code;
      ghost var fs2 := Emit(fs1, LoadBool(reg, false, true));
      SameLength(code, fs2.code);
      pT := |code|;
      Code(LoadBool(reg, true, false), fs2);
      ghost var three := code;
      ghost var fs3 := Emit(fs2, LoadBool(reg, true, false));
      LabelStates(fs, fs1, fj, reg, isJump);
      KeptTrans(one, two, three, fs1.jpc, fs2.jpc);
      ThreadsKept(one, three, j, fj, fs1.jpc);
      PatchToHere(j, fj, fs3);
      KeptBut(three, code, fs3.jpc);
      KeptTrans(one, three, code, fs1.jpc, fs3.jpc);
      KeptMore(old(code), one, [], fs.jpc);
      KeptTrans(old(code), one, code, fs.jpc, fs1.jpc);
      NeatApart(fs, e);
      ThreadsKept(old(code), code, t, e.t, fs.jpc);
      ThreadsKept(old(code), code, f, e.f, fs.jpc);
    }

    /** Both exit lists are patched. */
    method PatchExits(reg: int, t: int, f: int, pF: int, pT: int, ghost fs: Func, ghost e: Exp)
      requires Represents(fs) && Threads(code, t, e.t) && Threads(code, f, e.f) && Neat(fs, Exp(VTrue, e.t, e.f))
      requires pF == PENDING ==> forall j :: j in e.f ==> Carries(fs.code, j)
      requires pT == PENDING ==> forall j :: j in e.t ==> Carries(fs.code, j)
      modifies this`code
      ensures Represents(BoolCode.PatchExits(fs, e, reg, pF, pT))
      ensures JumpsKept(old(code), code, e.t + e.f)
    {
      SameLength(code, fs.code);
      hide Aligned, Threads, JumpsKept;
      var final := |code|;
      PatchListAux(f, final, reg, pF, e.f, fs.code);
      ghost var middle := code;
      ghost var model := Patch(fs.code, e.f, final, reg, pF);
      ThreadsKept(old(code), middle, t, e.t, e.f);
      ThreadsKept(old(code), middle, jpc, fs.jpc, e.f);
      StillCarried(fs.code, e.f, final, reg, pF, e.t);
      PatchListAux(t, final, reg, pT, e.t, model);
      ThreadsKept(middle, code, jpc, fs.jpc, e.t);
      KeptMore(old(code), middle, e.f, e.t + e.f);
      KeptTrans(old(code), middle, code, e.t + e.f, e.t);
    }

    /** Puts the value of an expression into its register, whichever way a run leaves it. */
    method ResolveExits(isJump: bool, reg: int, t: int, f: int, ghost fs: Func, ghost e: Exp)
      requires Represents(fs) && Threads(code, t, e.t) && Threads(code, f, e.f) && Neat(fs, Exp(VTrue, e.t, e.f))
      requires isJump == e.k.VJmp?
      modifies this
      ensures Represents(BoolCode.ResolveExits(fs, e, reg))
      ensures JumpsKept(old(code), code, fs.jpc + e.t + e.f)
    {
      HeadsDiffer(code, t, f, fs, e);
      hide Aligned, Threads, JumpsKept, BoolCode.LoadLabels, BoolCode.PatchExits, Neat;
      KeptSame(code, fs.jpc + e.t + e.f);
      if t != f {
        var pF, pT := PENDING, PENDING;
        var need := NeedsValue(t, e.t, fs.code);
        if !need {
          need := NeedsValue(f, e.f, fs.code);
        }
        if need {
          pF, pT := LoadLabels(isJump, reg, t, f, fs, e);
          ghost var middle := code;
          PatchExits(reg, t, f, pF, pT, BoolCode.LoadLabels(fs, reg, isJump).0, e);
          KeptMore(old(code), middle, fs.jpc, fs.jpc + e.t + e.f);
          KeptTrans(old(code), middle, code, fs.jpc + e.t + e.f, e.t + e.f);
        } else {
          PatchExits(reg, t, f, pF, pT, fs, e);
          KeptMore(old(code), code, e.t + e.f, fs.jpc + e.t + e.f);
        }
      }
    }

    method Exp2Reg(d: Desc, reg: int, ghost fs: Func, ghost e: Exp) returns (d1: Desc)
      requires State(fs, e, d)
      modifies this
      ensures Represents(BoolCode.Exp2Reg(fs, e, reg).0) && d1 == Desc(VNonReloc(reg), NO_JUMP, NO_JUMP)
      ensures JumpsKept(old(code), code, Mine(fs, e))
    {
      hide Aligned, Threads, JumpsKept, Neat, BoolCode.Discharge2Reg, BoolCode.ResolveExits;
      d1 := Discharge2Reg(d, reg, fs, e);
      ghost var (fs1, e1) := BoolCode.Discharge2Reg(fs, e, reg);
      ghost var middle := code;
      Discharge2RegIs(fs, e, reg);
      JumpApart(fs1, e1);
      var t, isJump := d1.t, d1.k.VJmp?;
      ghost var e2 := if e1.k.VJmp? then e1.(t := e1.t + [e1.k.pc]) else e1;
      KeptMore(old(code), middle, fs.jpc, Mine(fs, e));
      if isJump {
        t := Joined(d1.t, d1.k.pc, e1.t, [e1.k.pc], fs1);
        ThreadsKept(middle, code, d1.f, e1.f, e1.t);
        KeptTrans(old(code), middle, code, Mine(fs, e), e1.t);
      }
      ghost var later := code;
      ResolveExits(isJump, reg, t, d1.f, fs1, e2);
      KeptTrans(old(code), later, code, Mine(fs, e), fs1.jpc + e2.t + e2.f);
      d1 := Desc(VNonReloc(reg), NO_JUMP, NO_JUMP);
    }

    method Exp2NextReg(d: Desc, ghost fs: Func, ghost e: Exp) returns (d1: Desc)
      requires State(fs, e, d)
      modifies this
      ensures var (fs1, e1) := BoolCode.Exp2NextReg(fs, e); State(fs1, e1, d1)
      ensures JumpsKept(old(code), code, Mine(fs, e))
    {
      hide Aligned, Threads, JumpsKept, Neat, Holds, BoolCode.Exp2Reg, BoolCode.DischargeVars;
      d1 := DischargeVars(d, fs, e);
      ghost var (fs1, e1) := BoolCode.DischargeVars(fs, e);
      ghost var middle := code;
      DischargedIs(fs, e);
      MineOnly(fs, e, fs1, e1);
      HoldsKind(code, e1, d1);
      FreeExp(d1, fs1, e1);
      NeatFreed(fs1, e1);
      ghost var fs2 := BoolCode.FreeExp(fs1, e1);
      MineOnly(fs1, e1, fs2, e1);
      ReserveRegs(1, d1, fs2, e1);
      ghost var fs3 := BoolCode.ReserveRegs(fs2, 1);
      MineOnly(fs1, e1, fs3, e1);
      Exp2RegNeat(fs3, e1, fs3.freereg - 1);
      d1 := Exp2Reg(d1, freereg - 1, fs3, e1);
      NoExits(code, d1.k);
      KeptMore(old(code), middle, fs.jpc, Mine(fs, e));
      KeptTrans(old(code), middle, code, Mine(fs, e), Mine(fs3, e1));
    }

    method Exp2AnyReg(d: Desc, ghost fs: Func, ghost e: Exp) returns (d1: Desc)
      requires State(fs, e, d)
      modifies this
      ensures var (fs1, e1) := BoolCode.Exp2AnyReg(fs, e); State(fs1, e1, d1)
      ensures JumpsKept(old(code), code, Mine(fs, e))
    {
      hide Aligned, Threads, JumpsKept, Neat, Holds, BoolCode.Exp2Reg, BoolCode.DischargeVars, BoolCode.Exp2NextReg;
      d1 := DischargeVars(d, fs, e);
      ghost var (fs1, e1) := BoolCode.DischargeVars(fs, e);
      ghost var middle := code;
      DischargedIs(fs, e);
      MineOnly(fs, e, fs1, e1);
      HoldsKind(code, e1, d1);
      HoldsHeads(code, d1, fs1, e1);
      KeptMore(old(code), middle, fs.jpc, Mine(fs, e));
      if d1.k.VNonReloc? && d1.t == d1.f {
        return;
      }
      if d1.k.VNonReloc? && d1.k.r >= nactvar {
        Exp2RegNeat(fs1, e1, e1.k.r);
        d1 := Exp2Reg(d1, d1.k.r, fs1, e1);
        NoExits(code, d1.k);
      } else {
        d1 := Exp2NextReg(d1, fs1, e1);
      }
      KeptTrans(old(code), middle, code, Mine(fs, e), Mine(fs1, e1));
    }

    /** A constant operand needs no code; anything else goes to a register. */
    method Exp2RK(d: Desc, ghost fs: Func, ghost e: Exp) returns (d1: Desc)
      requires State(fs, e, d)
      modifies this
      ensures var (fs1, e1) := BoolCode.Exp2RK(fs, e); State(fs1, e1, d1)
      ensures JumpsKept(old(code), code, Mine(fs, e))
    {
      HoldsHeads(code, d, fs, e);
      hide Aligned, Threads, JumpsKept, Holds, Neat, BoolCode.DischargeVars, BoolCode.Exp2AnyReg, Mine;
      ghost var fs1, e1;
      if d.t != d.f {
        d1 := Exp2AnyReg(d, fs, e);
        fs1, e1 := BoolCode.Exp2AnyReg(fs, e).0, BoolCode.Exp2AnyReg(fs, e).1;
        AnyRegIs(fs, e);
      } else {
        d1 := DischargeVars(d, fs, e);
        fs1, e1 := BoolCode.DischargeVars(fs, e).0, BoolCode.DischargeVars(fs, e).1;
        DischargedIs(fs, e);
        MineOnly(fs, e, fs1, e1);
        KeptMore(old(code), code, fs.jpc, Mine(fs, e));
      }
      ghost var middle := code;
      HoldsKind(code, e1, d1);
      if d1.k.VTrue? || d1.k.VFalse? {
        ConstantNeat(fs1, e1, VK(Bool(d1.k.VTrue?)), code, d1);
        d1 := d1.(k := VK(Bool(d1.k.VTrue?)));
      } else if !d1.k.VK? {
        d1 := Exp2AnyReg(d1, fs1, e1);
        KeptTrans(old(code), middle, code, Mine(fs, e), Mine(fs1, e1));
      }
    }

    method CodeComp(op: Relation, cond: bool, d1: Desc, d2: Desc, ghost fs: Func, ghost e1: Exp, ghost e2: Exp)
      returns (d: Desc)
      requires State(fs, e2, d2) && Holds(code, e1, d1) && BoolSound.IsOperand(e1)
      modifies this
      ensures var (fs1, e) := BoolCode.CodeComp(fs, op, cond, e1, e2); State(fs1, e, d)
      ensures JumpsKept(old(code), code, Mine(fs, e2))
    {
      OperandDesc(code, fs, e1, d1, e2);
      hide Aligned, Threads, JumpsKept, Holds, Neat, BoolCode.Exp2RK, BoolCode.CondJump, Mine;
      // the first operand has been made one before the second was read: nothing is left to do for it
      var o1 := Exp2RK(d1, fs, e1);
      BoolSound.OperandAgain(fs, e1);
      ghost var first := code;
      HoldsKept(old(code), first, e2, d2, Mine(fs, e1));
      KeptMore(old(code), first, Mine(fs, e1), Mine(fs, e2));
      var o2 := Exp2RK(d2, fs, e2);
      ghost var (fs2, e3) := BoolCode.Exp2RK(fs, e2);
      ghost var middle := code;
      KeptTrans(old(code), first, middle, Mine(fs, e2), Mine(fs, e2));
      RKIs(fs, e2);
      HoldsKind(code, e3, o2);
      FreeExp(o2, fs2, e3);
      FreeExp(o1, BoolCode.FreeExp(fs2, e3), e1);
      ghost var fs3 := BoolCode.FreeExp(BoolCode.FreeExp(fs2, e3), e1);
      FreedNeat(fs2, e3, e1);
      var r1, r2 := RKOf(Exp(o1.k, [], [])), RKOf(Exp(o2.k, [], []));
      SameLength(old(code), fs.code);
      CompIs(fs, op, cond, e1, e2);
      d := CompareRK(if !cond && op != Equal then Compare(op, true, r2, r1) else Compare(op, cond, r1, r2), fs3);
      KeptTrans(old(code), middle, code, Mine(fs, e2), fs3.jpc);
    }

    /** The comparison itself and its jump, which is the value. */
    method CompareRK(ins: Instr, ghost fs: Func) returns (d: Desc)
      requires Represents(fs) && Neat(fs, Exp(VTrue, [], [])) && ins.Compare?
      modifies this
      ensures var (fs1, pc) := BoolCode.CondJump(fs, ins);
              pc == [|fs.code| + 1] && State(fs1, Exp(VJmp(pc[0]), [], []), d)
      ensures JumpsKept(old(code), code, fs.jpc)
    {
      hide Aligned, JumpsKept, BoolCode.CondJump;
      NoThreads(code);
      var j := CondJump(ins, fs, Exp(VTrue, [], []), Desc(VTrue, NO_JUMP, NO_JUMP));
      CondJumpNeat(fs, Exp(VTrue, [], []), ins);
      TestNeat(code, BoolCode.CondJump(fs, ins).0, j, |fs.code| + 1);
      d := Desc(VJmp(j), NO_JUMP, NO_JUMP);
    }

    // ---- operators

    method PosfixRel(op: RelOp, d1: Desc, d2: Desc, ghost fs: Func, ghost e1: Exp, ghost e2: Exp) returns (d: Desc)
      requires State(fs, e2, d2) && Holds(code, e1, d1) && BoolSound.IsOperand(e1)
      modifies this
      ensures var (fs1, e) := BoolCode.PosfixRel(fs, op, e1, e2); State(fs1, e, d)
      ensures JumpsKept(old(code), code, Mine(fs, e2))
    {
      hide BoolCode.CodeComp, Neat, Holds;
      match op
      case EQ => d := CodeComp(Equal, true, d1, d2, fs, e1, e2);
      case NE => d := CodeComp(Equal, false, d1, d2, fs, e1, e2);
      case LT => d := CodeComp(Less, true, d1, d2, fs, e1, e2);
      case LE => d := CodeComp(LessEqual, true, d1, d2, fs, e1, e2);
      case GT => d := CodeComp(Less, false, d1, d2, fs, e1, e2);
      case GE => d := CodeComp(LessEqual, false, d1, d2, fs, e1, e2);
    }

    /** The exits of the first operand join those of the second. */
    method PosfixLogic(isAnd: bool, d1: Desc, d2: Desc, ghost fs: Func, ghost e1: Exp, ghost e2: Exp) returns (d: Desc)
      requires State(fs, e2, d2) && Threads(code, d1.t, e1.t) && Threads(code, d1.f, e1.f)
      requires forall j :: j in e1.t || j in e1.f ==> j !in fs.jpc && j !in e2.t && j !in e2.f && Pending(fs.code, j)
      requires (isAnd ==> e1.t == []) && (!isAnd ==> e1.f == [])
      requires e2.k.VJmp? ==> e2.k.pc !in e1.t && e2.k.pc !in e1.f
      modifies this
      ensures var (fs1, e) := BoolCode.DischargeVars(fs, e2);
              Represents(fs1) && Holds(code, if isAnd then e.(f := e.f + e1.f) else e.(t := e.t + e1.t), d)
      ensures JumpsKept(old(code), code, Mine(fs, e2))
    {
      d := DischargeVars(d2, fs, e2);
      ghost var (fs1, e) := BoolCode.DischargeVars(fs, e2);
      ghost var middle := code;
      DischargedIs(fs, e2);
      MineOnly(fs, e2, fs1, e);
      hide Aligned, Threads, JumpsKept, BoolCode.DischargeVars;
      ThreadsKept(old(code), middle, d1.t, e1.t, fs.jpc);
      ThreadsKept(old(code), middle, d1.f, e1.f, fs.jpc);
      KeptMore(old(code), middle, fs.jpc, Mine(fs, e2));
      if isAnd {
        var both := Joined(d.f, d1.f, e.f, e1.f, fs1);
        ThreadsKept(middle, code, d.t, e.t, e.f);
        if e.k.VJmp? {
          ThreadsKept(middle, code, e.k.pc, [e.k.pc], e.f);
        }
        KeptTrans(old(code), middle, code, Mine(fs, e2), e.f);
        d := d.(f := both);
      } else {
        var both := Joined(d.t, d1.t, e.t, e1.t, fs1);
        ThreadsKept(middle, code, d.f, e.f, e.t);
        if e.k.VJmp? {
          ThreadsKept(middle, code, e.k.pc, [e.k.pc], e.t);
        }
        KeptTrans(old(code), middle, code, Mine(fs, e2), e.t);
        d := d.(t := both);
      }
    }

    // ---- expressions

    /** Generates code for an expression, as the parser drives the generator: the state stays in step with the model. */
    method Compile(x: Expr, ghost c0: BoolSound.Ctx, ghost fs: Func, ghost h: Hold) returns (d: Desc)
      requires Represents(fs) && BoolSound.Starts(c0, fs, h) && Scoped(x, fs.nactvar)
      modifies this
      ensures var (fs1, e1) := BoolCode.Compile(fs, x); State(fs1, e1, d)
      ensures JumpsKept(old(code), code, fs.jpc)
      decreases x, 1
    {
      hide BoolSound.Starts, Neat, Aligned, Threads, JumpsKept, BoolSound.Compiled;
      Rebase(c0, fs, h);
      ghost var c := c0.(base := fs);
      CompiledNeat(c, fs, x, h);
      match x {
        case Negate(e) =>
          d := Compile(e, c, fs, h);
          ghost var (fs1, e1) := BoolCode.Compile(fs, e);
          ghost var middle := code;
          CompiledNeat(c, fs, e, h);
          d := CodeNot(d, fs1, e1);
          SameLength(old(code), fs.code);
          KeptTrans(old(code), middle, code, fs.jpc, fs1.jpc);
        case And(_, _) => d := CompileLogic(x, c, fs, h);
        case Or(_, _) => d := CompileLogic(x, c, fs, h);
        case Rel(_, _, _) => d := CompileRel(x, c, fs, h);
        case _ =>
          d := Desc(Leaf(x), NO_JUMP, NO_JUMP);
          NoExits(code, d.k);
          KeptSame(code, fs.jpc);
      }
    }

    method CompileLogic(x: Expr, ghost c: BoolSound.Ctx, ghost fs: Func, ghost h: Hold) returns (d: Desc)
      requires Represents(fs) && BoolSound.Starts(c, fs, h) && Scoped(x, fs.nactvar) && (x.And? || x.Or?)
                 && c.base == fs
      modifies this
      ensures var (fs1, e1) := BoolCode.Compile(fs, x); State(fs1, e1, d)
      ensures JumpsKept(old(code), code, fs.jpc)
      decreases x, 0
    {
      hide BoolSound.Starts, Neat, Aligned, Threads, JumpsKept, BoolSound.Compiled, BoolCode.Infix,
             BoolCode.DischargeVars;
      SameLength(code, fs.code);
      CompiledNeat(c, fs, x, h);
      CompiledNeat(c, fs, x.a, h);
      var d1 := Compile(x.a, c, fs, h);
      ghost var (fs1, e1) := BoolCode.Compile(fs, x.a);
      ghost var one := code;
      if x.And? {
        d1 := GoIfTrue(d1, fs1, e1);
      } else {
        d1 := GoIfFalse(d1, fs1, e1);
      }
      ghost var two := code;
      ghost var (fs2, e2) := BoolCode.Infix(fs1, x, e1);
      InfixIs(fs1, x, e1);
      KeptTrans(old(code), one, two, fs.jpc, Mine(fs1, e1));
      SecondReady(c, fs, x, h);
      ghost var (c2, h2) := BoolSound.LogicSecond(c, fs, x, h);
      var d2 := Compile(x.b, c2, fs2, h2);
      ghost var (fs3, e3) := BoolCode.Compile(fs2, x.b);
      ghost var three := code;
      KeptTrans(old(code), two, three, fs.jpc, fs2.jpc);
      NeatApart(fs2, e2);
      ThreadsKept(two, three, d1.t, e2.t, fs2.jpc);
      ThreadsKept(two, three, d1.f, e2.f, fs2.jpc);
      d := PosfixLogic(x.And?, d1, d2, fs3, e2, e3);
      KeptTrans(old(code), three, code, fs.jpc, Mine(fs3, e3));
      LogicIs(fs, x);
    }

    method CompileRel(x: Expr, ghost c: BoolSound.Ctx, ghost fs: Func, ghost h: Hold) returns (d: Desc)
      requires Represents(fs) && BoolSound.Starts(c, fs, h) && Scoped(x, fs.nactvar) && x.Rel? && c.base == fs
      modifies this
      ensures var (fs1, e1) := BoolCode.Compile(fs, x); State(fs1, e1, d)
      ensures JumpsKept(old(code), code, fs.jpc)
      decreases x, 0
    {
      hide BoolSound.Starts, Neat, Aligned, Threads, JumpsKept, BoolSound.Compiled, BoolCode.Exp2RK, BoolCode.PosfixRel;
      SameLength(code, fs.code);
      CompiledNeat(c, fs, x.a, h);
      var d1 := Compile(x.a, c, fs, h);
      ghost var (fs1, e1) := BoolCode.Compile(fs, x.a);
      ghost var one := code;
      d1 := Exp2RK(d1, fs1, e1);
      ghost var two := code;
      ghost var (fs2, e2) := BoolCode.Exp2RK(fs1, e1);
      KeptTrans(old(code), one, two, fs.jpc, Mine(fs1, e1));
      OtherReady(c, fs, x, h);
      ghost var c2 := BoolSound.OtherSide(c, fs2);
      ghost var h2 := OperandHold(x.a, Act(c.env, x.a, BoolSound.Locals(c), h));
      HoldsKind(code, e2, d1);
      HeadsGone(code, d1, e2);
      var d2 := Compile(x.b, c2, fs2, h2);
      ghost var (fs3, e3) := BoolCode.Compile(fs2, x.b);
      ghost var three := code;
      KeptTrans(old(code), two, three, fs.jpc, fs2.jpc);
      NoExits(code, d1.k);
      d := PosfixRel(x.op, d1, d2, fs3, e2, e3);
      KeptTrans(old(code), three, code, fs.jpc, Mine(fs3, e3));
    }
  }

  lemma RelocCode(code: seq<Instr>, fs: Func, e: Exp)
    requires Aligned(code, fs.code) && Neat(fs, e)
    ensures e.k.VReloc? ==> 0 <= e.k.pc < |code| == |fs.code| && code[e.k.pc] == fs.code[e.k.pc]
  {
    if e.k.VReloc? {
      assert AlignedAt(code, fs.code, e.k.pc);
    }
  }

  /** The last instruction, which is no jump, is dropped. */
  lemma CutNeat(code: seq<Instr>, fs: Func, e: Exp, d: Desc)
    requires Aligned(code, fs.code) && Neat(fs, e) && e.k.VReloc?
    requires Threads(code, d.t, e.t) && Threads(code, d.f, e.f)
    ensures |fs.code| == |code| > 0
    ensures var fs1 := fs.(code := fs.code[..|fs.code| - 1]);
            var code1 := code[..|code| - 1];
            Aligned(code1, fs1.code) && Neat(fs1, e.(k := VTrue)) && Threads(code1, d.t, e.t)
                && Threads(code1, d.f, e.f) && fs.jpc == []
  {
    AlignedCut(code, fs.code);
    var n := |code| - 1;
    var fs1 := fs.(code := fs.code[..n]);
    assert forall j :: Pending(fs.code, j) && j < n ==> Pending(fs1.code, j);
    ThreadsCut(code, d.t, e.t);
    ThreadsCut(code, d.f, e.f);
  }

  lemma ThreadsCut(code: seq<Instr>, head: int, list: seq<int>)
    requires Threads(code, head, list) && code != [] && forall j :: j in list ==> j < |code| - 1
    ensures Threads(code[..|code| - 1], head, list)
  {
    var cut := code[..|code| - 1];
    forall k | 0 <= k < |list| ensures 0 <= list[k] < |cut| && cut[list[k]].Jmp? && Linked(cut, list, k) {
      assert list[k] in list && Linked(code, list, k);
    }
  }

  lemma CutKept(a: seq<Instr>, b: seq<Instr>, list: seq<int>)
    requires a != [] && !a[|a| - 1].Jmp? && JumpsKept(a[..|a| - 1], b, []) && |a| <= |b|
    ensures JumpsKept(a, b, list)
  {
  }

  lemma AnyRegKind(fs: Func, e: Exp)
    requires e.k.VReloc? || e.k.VNonReloc? || e.k.VK?
    ensures var (fs1, e1) := BoolCode.Discharge2AnyReg(fs, e);
            e1.k.VNonReloc? && e1.t == e.t && e1.f == e.f && forall j :: j in fs1.jpc ==> j in fs.jpc
  {
  }

  lemma NeatFreed(fs: Func, e: Exp)
    requires Neat(fs, e)
    ensures Neat(BoolCode.FreeExp(fs, e), e)
  {
  }

  lemma KeptBut(a: seq<Instr>, b: seq<Instr>, list: seq<int>)
    requires |a| <= |b| && forall i :: 0 <= i < |a| && i !in list ==> b[i] == a[i]
    ensures JumpsKept(a, b, list)
  {
  }

  lemma NoThreads(code: seq<Instr>)
    ensures Threads(code, NO_JUMP, [])
  {
  }

  lemma SplitNeat(fs: Func, e: Exp, own: seq<int>, other: seq<int>, pc: seq<int>, cond: bool)
    requires Neat(fs, Exp(VTrue, e.t, e.f)) && own == (if cond then e.t else e.f)
               && other == (if cond then e.f else e.t)
    requires forall i :: i in pc ==> Pending(fs.code, i) && i !in e.t && i !in e.f && i !in fs.jpc
    ensures Neat(BoolCode.PatchToHere(fs, other),
              Exp(VTrue, if cond then own + pc else [], if cond then [] else own + pc))
  {
  }

  lemma TurnNeat(fs: Func, e: Exp)
    requires Neat(fs, e) && e.k.VJmp?
    ensures var pc := e.k.pc;
            Neat(BoolCode.InvertJump(fs, e), e)
            && BoolCode.InvertJump(fs, e)
                 == fs.(code := fs.code[pc - 1 := fs.code[pc - 1].(cond := !fs.code[pc - 1].cond)])
  {
  }

  /** The jump on the value of a discharged descriptor, taken when the value has the sense of `cond`. */
  function Going(fs: Func, e: Exp, cond: bool): (Func, seq<int>) {
    match e.k
    case VK(_) => if cond then BoolCode.JumpOnCond(fs, e, cond) else (fs, [])
    case VTrue => if cond then BoolCode.Jump(fs) else (fs, [])
    case VFalse => if cond then (fs, []) else BoolCode.Jump(fs)
    case VJmp(pc) => (if cond then fs else BoolCode.InvertJump(fs, e), [pc])
    case _ => BoolCode.JumpOnCond(fs, e, cond)
  }

  lemma GoIfIs(fs: Func, e: Exp, cond: bool)
    ensures var (fs1, e1) := BoolCode.DischargeVars(fs, e);
            var (fs2, pc) := Going(fs1, e1, cond);
            (if cond then BoolCode.GoIfFalse(fs, e) else BoolCode.GoIfTrue(fs, e))
            == if cond then (BoolCode.PatchToHere(fs2, e1.f), e1.(t := e1.t + pc, f := []))
               else (BoolCode.PatchToHere(fs2, e1.t), e1.(f := e1.f + pc, t := []))
  {
  }

  lemma DischargedIs(fs: Func, e: Exp)
    ensures var (fs1, e1) := BoolCode.DischargeVars(fs, e);
            && !e1.k.VLocal? && !e1.k.VGlobal? && e1.t == e.t && e1.f == e.f && (e1.k.VJmp? ==> e1 == e)
            && |fs.code| <= |fs1.code| && forall j :: j in fs1.jpc ==> j in fs.jpc
  {
  }

  /** The lists after the jump: it is new, or it is the pending comparison, or it took over what waited. */
  lemma GoingNeat(fs: Func, e: Exp, cond: bool)
    requires Neat(fs, e) && !e.k.VLocal? && !e.k.VGlobal?
    ensures var (fs1, pc) := Going(fs, e, cond);
            && Neat(fs1, Exp(VTrue, e.t, e.f)) && |fs.code| <= |fs1.code|
            && (forall i :: i in pc ==> Pending(fs1.code, i) && i !in e.t && i !in e.f && i !in fs1.jpc)
            && (forall i :: i in fs1.jpc ==> i in fs.jpc)
  {
    hide BoolCode.JumpOnCond;
    match e.k
    case VK(_) => if cond { CondNeat(fs, e, cond); }
    case VTrue => if cond { JumpNeat(fs, e); }
    case VFalse => if !cond { JumpNeat(fs, e); }
    case VJmp(pc) => if !cond { TurnNeat(fs, e); }
    case _ => CondNeat(fs, e, cond);
  }

  lemma JumpNeat(fs: Func, e: Exp)
    requires Neat(fs, e)
    ensures var (fs1, pc) := BoolCode.Jump(fs);
            && Neat(fs1, Exp(VTrue, e.t, e.f))
            && (forall i :: i in pc ==> Pending(fs1.code, i) && i !in e.t && i !in e.f)
  {
    var code := fs.code + [Jmp(PENDING)];
    assert forall j :: Pending(fs.code, j) ==> Pending(code, j) && j != |fs.code|;
    assert forall i :: i in [|fs.code|] + fs.jpc ==> i == |fs.code| || i in fs.jpc;
  }

  lemma CondNeat(fs: Func, e: Exp, cond: bool)
    requires Neat(fs, e) && (e.k.VReloc? || e.k.VNonReloc? || e.k.VK?)
    ensures var (fs1, pc) := BoolCode.JumpOnCond(fs, e, cond);
            && Neat(fs1, Exp(VTrue, e.t, e.f)) && fs1.jpc == [] && |fs.code| <= |fs1.code|
            && (forall i :: i in pc ==> Pending(fs1.code, i) && i !in e.t && i !in e.f)
  {
    if e.k.VReloc? && fs.code[e.k.pc].Not? {
      var fs1 := fs.(code := fs.code[..|fs.code| - 1]);
      assert forall j :: Pending(fs.code, j) && j < |fs.code| - 1 ==> Pending(fs1.code, j);
      hide View;
      CondJumpNeat(fs1, e.(k := VTrue), Test(fs.code[e.k.pc].b, !cond));
    } else {
      Discharge2AnyNeat(fs, e);
      AnyRegKind(fs, e);
      hide Neat, View, BoolCode.Discharge2AnyReg;
      var (fs1, e1) := BoolCode.Discharge2AnyReg(fs, e);
      NeatFreed(fs1, e1);
      CondJumpNeat(BoolCode.FreeExp(fs1, e1), e1, TestSet(NO_REG, e1.k.r, cond));
      OpenNeat(BoolCode.CondJump(BoolCode.FreeExp(fs1, e1), TestSet(NO_REG, e1.k.r, cond)).0,
          BoolCode.FreeExp(fs1, e1), e1);
    }
  }

  lemma Discharge2AnyNeat(fs: Func, e: Exp)
    requires Neat(fs, e) && (e.k.VReloc? || e.k.VNonReloc? || e.k.VK?)
    ensures Neat(BoolCode.Discharge2AnyReg(fs, e).0, BoolCode.Discharge2AnyReg(fs, e).1)
    ensures |fs.code| <= |BoolCode.Discharge2AnyReg(fs, e).0.code|
  {
    Discharge2RegNeat(BoolCode.ReserveRegs(fs, 1), e, fs.freereg);
  }

  lemma OpenNeat(fs1: Func, fs: Func, e: Exp)
    requires Neat(fs, e) && fs1.jpc == [] && forall j :: j in e.t || j in e.f ==> Pending(fs1.code, j) && j < |fs.code|
    ensures Neat(fs1, Exp(VTrue, e.t, e.f)) && |fs.code| !in e.t && |fs.code| + 1 !in e.t && |fs.code| + 1 !in e.f
  {
  }

  /** The negated value of a discharged descriptor, before its lists change places. */
  function Noted(fs: Func, e: Exp): (Func, Kind) {
    match e.k
    case VFalse => (fs, VTrue)
    case VTrue => (fs, VFalse)
    case VK(_) => (fs, VFalse)
    case VJmp(_) => (BoolCode.InvertJump(fs, e), e.k)
    case _ =>
      var (g, d) := BoolCode.Discharge2AnyReg(fs, e);
      (Emit(BoolCode.FreeExp(g, d), Not(0, if d.k.VNonReloc? then d.k.r else 0)), VReloc(|g.code|))
  }

  lemma NotIs(fs: Func, e: Exp)
    ensures var (fs1, e1) := BoolCode.DischargeVars(fs, e);
            var (fs2, k) := Noted(fs1, e1);
            BoolCode.CodeNot(fs, e)
            == (fs2.(code := BoolCode.RemoveValues(BoolCode.RemoveValues(fs2.code, e1.t), e1.f)), Exp(k, e1.f, e1.t))
  {
  }

  /** What the loads leave: the jump over them waits for the position behind. */
  lemma LoadLabelsNeat(fs: Func, e: Exp, reg: int, isJump: bool)
    requires Neat(fs, Exp(VTrue, e.t, e.f))
    ensures Neat(BoolCode.LoadLabels(fs, reg, isJump).0, Exp(VTrue, e.t, e.f))
  {
    var e0 := Exp(VTrue, e.t, e.f);
    var fs1 := if isJump then fs else BoolCode.Jump(fs).0;
    if !isJump {
      JumpNeat(fs, e0);
    }
    hide Emit;
    EmitNeat(fs1, e0, LoadBool(reg, false, true), VTrue);
    var fs2 := Emit(fs1, LoadBool(reg, false, true));
    EmitNeat(fs2, e0, LoadBool(reg, true, false), VTrue);
    var fs3 := Emit(fs2, LoadBool(reg, true, false));
    if !isJump {
      JumpStays(fs, reg);
      assert BoolCode.LoadLabels(fs, reg, isJump).0 == BoolCode.PatchToHere(fs3, BoolCode.Jump(fs).1);
    }
  }

  /** The jump over the loads, and what it took over, still waits behind them. */
  lemma JumpStays(fs: Func, reg: int)
    requires forall j :: j in fs.jpc ==> Pending(fs.code, j)
    ensures var (fs1, fj) := BoolCode.Jump(fs);
            var fs3 := Emit(Emit(fs1, LoadBool(reg, false, true)), LoadBool(reg, true, false));
            fs3.jpc == [] && forall j :: j in fj ==> Pending(fs3.code, j)
  {
    var (fs1, fj) := BoolCode.Jump(fs);
    assert forall j :: j in fj ==> Pending(fs1.code, j);
    assert View(fs1) == fs1.code;
    var fs2 := Emit(fs1, LoadBool(reg, false, true));
    assert View(fs2) == fs2.code;
  }

  lemma LabelStates(fs: Func, fs1: Func, fj: seq<int>, reg: int, isJump: bool)
    requires fs1 == (if isJump then fs else BoolCode.Jump(fs).0) && fj == (if isJump then [] else BoolCode.Jump(fs).1)
    ensures var fs2 := Emit(fs1, LoadBool(reg, false, true));
            var fs3 := Emit(fs2, LoadBool(reg, true, false));
            && fs2.jpc == [] == fs3.jpc && (fs1.jpc == [] || fs1 == fs)
            && BoolCode.LoadLabels(fs, reg, isJump) == (BoolCode.PatchToHere(fs3, fj), |fs1.code|, |fs2.code|)
            && (isJump || fs1.jpc == [])
  {
  }

  lemma NeatApart(fs: Func, e: Exp)
    requires Neat(fs, Exp(VTrue, e.t, e.f))
    ensures forall j :: j in e.t || j in e.f ==> j !in fs.jpc
  {
  }

  lemma StillCarried(code: seq<Instr>, list: seq<int>, vtarget: int, reg: int, dtarget: int, other: seq<int>)
    requires forall j :: j in list ==> Pending(code, j)
    requires forall j :: j in other ==> Pending(code, j) && j !in list
    ensures forall j :: j in other && Carries(code, j) ==> Carries(Patch(code, list, vtarget, reg, dtarget), j)
  {
    forall j | j in other && Carries(code, j) ensures Carries(Patch(code, list, vtarget, reg, dtarget), j) {
      assert Patch(code, list, vtarget, reg, dtarget)[j - 1] == PatchedAt(code, list, vtarget, reg, dtarget, j - 1);
      assert j - 1 in list ==> Pending(code, j - 1);
    }
  }

  lemma HeadsDiffer(code: seq<Instr>, t: int, f: int, fs: Func, e: Exp)
    requires Threads(code, t, e.t) && Threads(code, f, e.f) && Neat(fs, Exp(VTrue, e.t, e.f))
    ensures t != f <==> HasJumps(e)
  {
    if e.t != [] {
      assert e.t[0] in e.t;
      assert 0 <= e.t[0];
    }
    if e.f != [] {
      assert e.f[0] in e.f;
      assert 0 <= e.f[0];
    }
  }

  lemma Discharge2RegIs(fs: Func, e: Exp, reg: int)
    ensures var (fs1, e1) := BoolCode.Discharge2Reg(fs, e, reg);
            && e1.t == e.t && e1.f == e.f && (e1.k.VJmp? ==> e1.k == e.k) && (!e1.k.VJmp? ==> e1.k == VNonReloc(reg))
            && |fs.code| <= |fs1.code| && (forall j :: j in fs1.jpc ==> j in fs.jpc)
            && BoolCode.Exp2Reg(fs, e, reg).0 == BoolCode.ResolveExits(fs1,
                 if e1.k.VJmp? then e1.(t := e1.t + [e1.k.pc]) else e1, reg)
  {
  }

  /** A pending comparison belongs to no list yet. */
  lemma JumpApart(fs: Func, e: Exp)
    requires Neat(fs, e)
    ensures Neat(fs, Exp(VTrue, if e.k.VJmp? then e.t + [e.k.pc] else e.t, e.f))
    ensures forall j :: j in e.t ==> Pending(fs.code, j) && j !in fs.jpc && (e.k.VJmp? ==> j !in [e.k.pc])
    ensures forall j :: j in e.f ==> j !in e.t && (e.k.VJmp? ==> j != e.k.pc)
  {
  }

  lemma MineOnly(fs: Func, e: Exp, fs1: Func, e1: Exp)
    requires (forall j :: j in fs1.jpc ==> j in fs.jpc) && e1.t == e.t && e1.f == e.f && (e1.k.VJmp? ==> e1.k == e.k)
    ensures forall j :: j in Mine(fs1, e1) ==> j in Mine(fs, e)
    ensures forall j :: j in fs.jpc ==> j in Mine(fs, e)
  {
  }

  /** Once its exits are resolved an expression has no lists. */
  lemma Exp2RegNeat(fs: Func, e: Exp, reg: int)
    requires Neat(fs, e)
    ensures var (fs1, e1) := BoolCode.Exp2Reg(fs, e, reg);
            Neat(fs1, e1) && e1 == Exp(VNonReloc(reg), [], []) && |fs.code| <= |fs1.code|
    ensures forall j :: j in BoolCode.Exp2Reg(fs, e, reg).0.jpc ==> j in fs.jpc || j >= |fs.code|
  {
    Discharge2RegNeat(fs, e, reg);
    Discharge2RegIs(fs, e, reg);
    var (fs1, e1) := BoolCode.Discharge2Reg(fs, e, reg);
    JumpApart(fs1, e1);
    hide Neat, BoolCode.Discharge2Reg;
    ResolveNeat(fs1, if e1.k.VJmp? then e1.(t := e1.t + [e1.k.pc]) else e1, reg);
  }

  lemma ResolveNeat(fs: Func, e: Exp, reg: int)
    requires Neat(fs, Exp(VTrue, e.t, e.f))
    ensures var fs1 := BoolCode.ResolveExits(fs, e, reg);
            Neat(fs1, Exp(VNonReloc(reg), [], [])) && |fs.code| <= |fs1.code|
    ensures forall j :: j in BoolCode.ResolveExits(fs, e, reg).jpc ==> j in fs.jpc || j >= |fs.code|
  {
    LoadLabelsNeat(fs, e, reg, e.k.VJmp?);
    LabelsLonger(fs, reg, e.k.VJmp?);
    var (fs1, pF, pT) := BoolCode.LoadLabels(fs, reg, e.k.VJmp?);
    PatchedNeat(fs1, e, reg, pF, pT);
    PatchedNeat(fs, e, reg, PENDING, PENDING);
    hide BoolCode.LoadLabels, BoolCode.PatchExits;
    NeatJpc(fs, e, reg);
  }

  lemma NeatJpc(fs: Func, e: Exp, reg: int)
    requires Neat(fs, Exp(VTrue, e.t, e.f))
    ensures Neat(fs, Exp(VNonReloc(reg), [], []))
  {
  }

  lemma LabelsLonger(fs: Func, reg: int, isJump: bool)
    ensures var fs1 := BoolCode.LoadLabels(fs, reg, isJump).0;
            |fs.code| <= |fs1.code| && forall j :: j in fs1.jpc ==> j in fs.jpc || j >= |fs.code|
  {
  }

  lemma PatchedNeat(fs: Func, e: Exp, reg: int, pF: int, pT: int)
    requires Neat(fs, Exp(VTrue, e.t, e.f))
    ensures var fs1 := BoolCode.PatchExits(fs, e, reg, pF, pT);
            Neat(fs1, Exp(VNonReloc(reg), [], [])) && |fs1.code| == |fs.code| && fs1.jpc == fs.jpc
  {
    var fs1 := BoolCode.PatchExits(fs, e, reg, pF, pT);
    var c1 := Patch(fs.code, e.f, |fs.code|, reg, pF);
    forall j | j in fs.jpc ensures Pending(fs1.code, j) {
      assert c1[j] == PatchedAt(fs.code, e.f, |fs.code|, reg, pF, j);
      assert fs1.code[j] == PatchedAt(c1, e.t, |fs.code|, reg, pT, j);
    }
  }

  lemma NoExits(code: seq<Instr>, k: Kind)
    requires !k.VJmp?
    ensures Holds(code, Exp(k, [], []), Desc(k, NO_JUMP, NO_JUMP))
  {
  }

  lemma HoldsHeads(code: seq<Instr>, d: Desc, fs: Func, e: Exp)
    requires Holds(code, e, d) && Neat(fs, e)
    ensures d.t != d.f <==> HasJumps(e)
  {
    HeadsDiffer(code, d.t, d.f, fs, e);
  }

  lemma NoLists(fs: Func, e: Exp)
    requires Neat(fs, e)
    ensures !HasJumps(e) ==> e.t == [] == e.f
  {
    if e.t != [] {
      var j := e.t[0];
      assert j in e.t && Pending(fs.code, j);
      assert e.t == e.f ==> j in e.f;
    }
  }

  lemma AnyRegIs(fs: Func, e: Exp)
    requires Neat(fs, e)
    ensures var (fs1, e1) := BoolCode.Exp2AnyReg(fs, e);
            && e1.k.VNonReloc? && e1.t == [] == e1.f && |fs.code| <= |fs1.code|
            && forall j :: j in Mine(fs1, e1) ==> j in Mine(fs, e) || j >= |fs.code|
  {
    DischargeNeat(fs, e);
    DischargedIs(fs, e);
    hide Neat, BoolCode.DischargeVars, BoolCode.Exp2Reg, Mine;
    var (fs1, e1) := BoolCode.DischargeVars(fs, e);
    MineOnly(fs, e, fs1, e1);
    if e1.k.VNonReloc? && !HasJumps(e1) {
      NoLists(fs1, e1);
    } else if e1.k.VNonReloc? && e1.k.r >= fs1.nactvar {
      Exp2RegNeat(fs1, e1, e1.k.r);
      NoListsMine(BoolCode.Exp2Reg(fs1, e1, e1.k.r).0, VNonReloc(e1.k.r));
    } else {
      NextRegIs(fs1, e1);
      NoListsMine(BoolCode.Exp2NextReg(fs1, e1).0, BoolCode.Exp2NextReg(fs1, e1).1.k);
      assert BoolCode.Exp2AnyReg(fs, e) == BoolCode.Exp2NextReg(fs1, e1);
    }
  }

  lemma NoListsMine(fs: Func, k: Kind)
    requires !k.VJmp?
    ensures forall j :: j in Mine(fs, Exp(k, [], [])) ==> j in fs.jpc
  {
  }

  lemma NextRegIs(fs: Func, e: Exp)
    requires Neat(fs, e) && !e.k.VLocal? && !e.k.VGlobal?
    ensures var (fs1, e1) := BoolCode.Exp2NextReg(fs, e);
            && e1.k.VNonReloc? && e1 == Exp(e1.k, [], []) && |fs.code| <= |fs1.code|
            && forall j :: j in fs1.jpc ==> j in fs.jpc || j >= |fs.code|
  {
    hide Neat, BoolCode.Exp2Reg;
    NeatFreed(fs, e);
    var fs2 := BoolCode.ReserveRegs(BoolCode.FreeExp(fs, e), 1);
    SameNeat(BoolCode.FreeExp(fs, e), fs2, e);
    Exp2RegNeat(fs2, e, fs2.freereg - 1);
    assert BoolCode.Exp2NextReg(fs, e) == BoolCode.Exp2Reg(fs2, e, fs2.freereg - 1);
  }

  lemma SameNeat(fs: Func, fs1: Func, e: Exp)
    requires Neat(fs, e) && fs1.code == fs.code && fs1.jpc == fs.jpc
    ensures Neat(fs1, e)
  {
  }

  lemma ConstantNeat(fs: Func, e: Exp, k: Kind, code: seq<Instr>, d: Desc)
    requires Neat(fs, e) && Holds(code, e, d) && (e.k.VTrue? || e.k.VFalse?) && k.VK?
    ensures Neat(fs, e.(k := k)) && Holds(code, e.(k := k), d.(k := k))
  {
  }

  lemma OperandDesc(code: seq<Instr>, fs: Func, e: Exp, d: Desc, other: Exp)
    requires BoolSound.IsOperand(e) && Neat(fs, other) && Holds(code, e, d)
    ensures Neat(fs, e) && (forall j :: j in Mine(fs, e) ==> j in fs.jpc)
    ensures forall j :: j in Mine(fs, e) ==> j !in other.t && j !in other.f && (other.k.VJmp? ==> j != other.k.pc)
    ensures forall j :: j in Mine(fs, e) ==> j in Mine(fs, other)
  {
  }

  /** An operand of a comparison has no lists, and what waits is new or waited before. */
  lemma RKIs(fs: Func, e: Exp)
    requires Neat(fs, e)
    ensures var (fs1, e1) := BoolCode.Exp2RK(fs, e);
            && (forall j :: j in fs1.jpc ==> j in Mine(fs, e) || j >= |fs.code|)
            && (e1.k.VK? || e1.k.VNonReloc?) && e1.t == [] == e1.f
  {
    hide Neat, BoolCode.DischargeVars, BoolCode.Exp2AnyReg;
    if HasJumps(e) {
      AnyRegIs(fs, e);
      NonRelocAgain(BoolCode.Exp2AnyReg(fs, e).0, BoolCode.Exp2AnyReg(fs, e).1);
    } else {
      NoLists(fs, e);
      DischargeNeat(fs, e);
      DischargedIs(fs, e);
      var (fs1, e1) := BoolCode.DischargeVars(fs, e);
      MineOnly(fs, e, fs1, e1);
      AnyRegIs(fs1, e1);
    }
  }

  lemma NonRelocAgain(fs: Func, e: Exp)
    requires e.k.VNonReloc? && !HasJumps(e)
    ensures BoolCode.Exp2AnyReg(fs, e) == (fs, e)
  {
  }

  lemma FreedNeat(fs: Func, e: Exp, other: Exp)
    requires Neat(fs, e)
    ensures Neat(BoolCode.FreeExp(BoolCode.FreeExp(fs, e), other), Exp(VTrue, [], []))
    ensures BoolCode.FreeExp(BoolCode.FreeExp(fs, e), other).jpc == fs.jpc
  {
  }

  lemma TestNeat(code: seq<Instr>, fs: Func, j: int, pc: int)
    requires Threads(code, j, [pc]) && fs.jpc == [] && pc == |fs.code| - 1 >= 1 && Pending(fs.code, pc)
               && fs.code[pc - 1].Compare?
    ensures j == pc && Neat(fs, Exp(VJmp(pc), [], []))
              && Holds(code, Exp(VJmp(pc), [], []), Desc(VJmp(j), NO_JUMP, NO_JUMP))
  {
  }

  lemma CompIs(fs: Func, op: Relation, cond: bool, e1: Exp, e2: Exp)
    requires BoolSound.IsOperand(e1)
    ensures var (fs2, e3) := BoolCode.Exp2RK(fs, e2);
            var fs3 := BoolCode.FreeExp(BoolCode.FreeExp(fs2, e3), e1);
            var swap := !cond && op != Equal;
            var ins := if swap then Compare(op, true, RKOf(e3), RKOf(e1)) else Compare(op, cond, RKOf(e1), RKOf(e3));
            var (fs4, pc) := BoolCode.CondJump(fs3, ins);
            BoolCode.CodeComp(fs, op, cond, e1, e2) == (fs4, e1.(k := VJmp(pc[0])))
  {
    BoolSound.OperandAgain(fs, e1);
  }

  function Leaf(x: Expr): Kind
    requires x.Local? || x.Global? || x.True? || x.False? || x.Const?
  {
    match x
    case Local(r) => VLocal(r)
    case Global(g) => VGlobal(g)
    case True => VTrue
    case False => VFalse
    case Const(v) => VK(v)
  }

  /** A compiled expression is in order, and its jumps are its own. */
  lemma CompiledNeat(c: BoolSound.Ctx, fs: Func, x: Expr, h: Hold)
    requires BoolSound.Starts(c, fs, h) && Scoped(x, fs.nactvar)
    ensures var (fs1, e1) := BoolCode.Compile(fs, x);
            && Neat(fs1, e1) && fs1.nactvar == fs.nactvar
            && forall j :: j in Mine(fs1, e1) ==> j in c.base.jpc || j >= |c.base.code|
    ensures forall j :: j in BoolCode.Compile(fs, x).0.jpc ==> j in c.base.jpc || j >= |c.base.code|
  {
    hide BoolSound.Starts, Neat, BoolSound.Means;
    BoolSound.CompileMeans(c, fs, x, h);
    var (fs1, e1) := BoolCode.Compile(fs, x);
    MeansNeat(c, fs1, e1, Act(c.env, x, BoolSound.Locals(c), h));
    MeansMine(c, fs1, e1, Act(c.env, x, BoolSound.Locals(c), h));
    MineOnly(fs1, e1, fs1, e1);
  }

  lemma InfixIs(fs: Func, x: Expr, e: Exp)
    requires x.And? || x.Or?
    ensures BoolCode.Infix(fs, x, e) == if x.And? then BoolCode.GoIfTrue(fs, e) else BoolCode.GoIfFalse(fs, e)
  {
  }

  /** The second operand of `and` and `or` is ready to be generated, and its lists are apart from those of the first. */
  lemma SecondReady(c: BoolSound.Ctx, fs: Func, x: Expr, h: Hold)
    requires BoolSound.Starts(c, fs, h) && Scoped(x, fs.nactvar) && (x.And? || x.Or?)
    ensures var (fs1, e1) := BoolCode.Compile(fs, x.a);
            var (fs2, e2) := BoolCode.Infix(fs1, x, e1);
            var (fs3, e3) := BoolCode.Compile(fs2, x.b);
            var (c2, h2) := BoolSound.LogicSecond(c, fs, x, h);
            && BoolSound.Starts(c2, fs2, h2) && Scoped(x.b, fs2.nactvar)
            && (if x.And? then e2.t == [] else e2.f == []) && Neat(fs2, Exp(VTrue, e2.t, e2.f))
            && (forall j :: j in fs2.jpc || j in Mine(fs3, e3) ==> j in c.base.jpc || j >= |c.base.code|)
            && (forall j :: j in e2.t || j in e2.f ==> j !in fs3.jpc && j !in e3.t && j !in e3.f && Pending(fs3.code, j)
                                                       && (e3.k.VJmp? ==> j != e3.k.pc))
  {
    hide BoolSound.Starts, Neat, BoolSound.Means, BoolSound.Arrives, BoolCode.Infix, BoolSound.Second;
    BoolSound.CompileMeans(c, fs, x.a, h);
    BoolSound.LogicStarts(c, fs, x, h);
    var (fs1, e1) := BoolCode.Compile(fs, x.a);
    var (fs2, e2) := BoolCode.Infix(fs1, x, e1);
    var (c2, h2) := BoolSound.LogicSecond(c, fs, x, h);
    var g := JumpIf(EndOf(x.a), Act(c.env, x.a, BoolSound.Locals(c), h), x.And?);
    ArrivesNeat(c, fs2, e2.t, e2.f, g);
    ArrivesMine(c, fs2, e2.t, e2.f, g);
    BoolSound.CompileMeans(c2, fs2, x.b, h2);
    var (fs3, e3) := BoolCode.Compile(fs2, x.b);
    OutApart(c2, fs3, e3, Act(c2.env, x.b, BoolSound.Locals(c2), h2));
    MeansMine(c2, fs3, e3, Act(c2.env, x.b, BoolSound.Locals(c2), h2));
    SecondOut(c, fs2, e2.t, e2.f, g);
  }

  lemma SecondOut(c: BoolSound.Ctx, fs: Func, t: seq<int>, f: seq<int>, res: Leave)
    ensures var c2 := BoolSound.Second(c, fs, t, f, res);
            c2.base == c.base && forall j :: j in t || j in f ==> j in c2.out
  {
  }

  lemma OtherReady(c: BoolSound.Ctx, fs: Func, x: Expr, h: Hold)
    requires BoolSound.Starts(c, fs, h) && Scoped(x, fs.nactvar) && x.Rel?
    ensures var (fs1, e1) := BoolCode.Compile(fs, x.a);
            var (fs2, e2) := BoolCode.Exp2RK(fs1, e1);
            var c2 := BoolSound.OtherSide(c, fs2);
            var (fs3, e3) := BoolCode.Compile(fs2, x.b);
            && BoolSound.Starts(c2, fs2, OperandHold(x.a, Act(c.env, x.a, BoolSound.Locals(c), h)))
            && Scoped(x.b, fs2.nactvar) && BoolSound.IsOperand(e2)
            && (forall j :: j in fs2.jpc || j in Mine(fs3, e3) ==> j in c.base.jpc || j >= |c.base.code|)
  {
    hide BoolSound.Starts, Neat, BoolCode.Exp2RK, BoolSound.Arrives;
    CompiledNeat(c, fs, x.a, h);
    var (fs1, e1) := BoolCode.Compile(fs, x.a);
    BoolSound.CompileMeans(c, fs, x.a, h);
    BoolSound.RelStarts(c, fs, x, h);
    RKIs(fs1, e1);
    var fs2 := BoolCode.Exp2RK(fs1, e1).0;
    var h2 := OperandHold(x.a, Act(c.env, x.a, BoolSound.Locals(c), h));
    CompiledNeat(BoolSound.OtherSide(c, fs2), fs2, x.b, h2);
    StartsMine(BoolSound.OtherSide(c, fs2), fs2, h2);
  }

  lemma StartsMine(c: BoolSound.Ctx, fs: Func, h: Hold)
    requires BoolSound.Starts(c, fs, h)
    ensures forall j :: j in fs.jpc ==> j in c.base.jpc || j >= |c.base.code|
  {
  }

  lemma HeadsGone(code: seq<Instr>, d: Desc, e: Exp)
    requires Holds(code, e, d) && BoolSound.IsOperand(e)
    ensures d == Desc(e.k, NO_JUMP, NO_JUMP) && e == Exp(e.k, [], [])
  {
  }

  lemma LogicIs(fs: Func, x: Expr)
    requires x.And? || x.Or?
    ensures var (fs1, e1) := BoolCode.Compile(fs, x.a);
            var (fs2, e2) := BoolCode.Infix(fs1, x, e1);
            var (fs3, e3) := BoolCode.Compile(fs2, x.b);
            var (fs4, e4) := BoolCode.DischargeVars(fs3, e3);
            BoolCode.Compile(fs, x) == (fs4, if x.And? then e4.(f := e4.f + e2.f) else e4.(t := e4.t + e2.t))
  {
  }

  lemma AppendKept(a: seq<Instr>, b: seq<Instr>)
    requires |a| <= |b| && b[..|a|] == a
    ensures JumpsKept(a, b, [])
  {
  }

  lemma DischargeJpc(fs: Func, e: Exp)
    ensures var fs1 := BoolCode.DischargeVars(fs, e).0; forall j :: j in fs1.jpc ==> j in fs.jpc
  {
  }

  lemma HoldsKind(code: seq<Instr>, e: Exp, d: Desc)
    requires Holds(code, e, d)
    ensures d.k == e.k
  {
  }

  lemma KeptSame(code: seq<Instr>, list: seq<int>)
    ensures JumpsKept(code, code, list)
  {
  }
}
