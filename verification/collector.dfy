/** The incremental collector as it runs: marking, the atomic step, sweeping, and the program's side (lgc.cc). */
module GcCollector {
  import opened GcState
  import opened GcMark
  import opened GcSweep
  import opened GcMutate
  import opened GcCycle
  import GcBits
  import opened Numbers

  class Collector {
    var objs: map<Ref, Obj>
    var white: Color
    var phase: Phase
    var gray: seq<Ref>
    var grayagain: seq<Ref>
    var rootgc: seq<Ref>
    var sweepgc: nat
    var strt: seq<seq<Ref>>
    var sweepstrgc: nat
    var nuse: int
    var open: map<Ref, seq<Ref>>
    var uvhead: seq<Ref>
    var mainthread: Ref
    var running: Ref
    var registry: Ref
    var mt: seq<Ref>

    function Snap(): State
      reads this
    {
      State(objs, white, phase, gray, grayagain, rootgc, sweepgc, strt, sweepstrgc, nuse, open, uvhead,
            mainthread, running, registry, mt)
    }

    // ---- marking

    method ReallyMark(x: Ref, ghost pend: set<Ref>, ghost lim: set<Ref>)
      requires Marking(Snap(), pend) && Within(Snap(), lim)
      requires x in objs && x in lim && !Marked(Snap(), x)
      modifies this`objs, this`gray
      ensures Marking(Snap(), pend) && Within(Snap(), lim)
      ensures objs.Keys == old(objs.Keys)
      ensures Grew(old(Snap()), Snap()) && Marked(Snap(), x)
      decreases Rank(objs[x].kind), 1
    {
      hide Marking, Within;
      ghost var s := Snap();
      var o := objs[x];
      KidsReady(s, x, pend, lim);
      if Composite(o.kind) {
        objs := objs[x := o.(color := Gray)];
        gray := [x] + gray;
        MarkComposite(s, x, pend);
        WithinGrew(s, Snap(), x, lim);
      } else {
        var first := if o.kind.Udata? then Black else Gray;
        objs := objs[x := o.(color := first)];
        MarkOne(s, x, first, pend);
        WithinGrew(s, Snap(), x, lim);
        ghost var s1 := Snap();
        KidsReady(s1, x, pend + {x}, lim);
        MarkKids(Kids(Snap(), x), Rank(o.kind), pend + {x}, lim);
        MarkFinished(s, s1, Snap(), x, first, pend, lim);
        if o.kind.ClosedUpval? {
          objs := objs[x := objs[x].(color := Black)];
        }
      }
    }

    method MarkKids(kids: seq<Ref>, ghost bound: nat, ghost pend: set<Ref>, ghost lim: set<Ref>)
      requires Marking(Snap(), pend) && Within(Snap(), lim)
      requires forall k :: k in kids && !Plain(k) ==> k in objs && k in lim && Rank(objs[k].kind) < bound
      modifies this`objs, this`gray
      ensures Marking(Snap(), pend) && Within(Snap(), lim)
      ensures objs.Keys == old(objs.Keys)
      ensures Grew(old(Snap()), Snap())
      ensures forall k :: k in kids ==> Plain(k) || Marked(Snap(), k)
      ensures gray == old(gray) || Whites(Snap()) < Whites(old(Snap()))
      decreases bound, 0
    {
      hide Marking, Within;
      for i := 0 to |kids|
        invariant Marking(Snap(), pend) && Within(Snap(), lim) && Grew(old(Snap()), Snap())
                    && objs.Keys == old(objs.Keys)
        invariant forall j :: 0 <= j < i ==> Plain(kids[j]) || Marked(Snap(), kids[j])
        invariant gray == old(gray) || Whites(Snap()) < Whites(old(Snap()))
      {
        ghost var before := Snap();
        var unseen := false;
        if !Plain(kids[i]) {
          unseen := GcBits.TestWhite(objs[kids[i]].color, objs[kids[i]].fixed);
        }
        if unseen {
          assert SameObj(old(Snap()), Snap(), kids[i]);
          ReallyMark(kids[i], pend, lim);
          GrewTrans(old(Snap()), before, Snap());
          GrewWhites(before, Snap(), kids[i]);
          GrewSubset(old(Snap()), before);
        }
      }
    }

    /** Takes one object off the gray list and marks what it refers to; a thread stays gray for the atomic step. */
    method PropagateMark(ghost pend: set<Ref>, ghost lim: set<Ref>)
      requires Marking(Snap(), pend) && Within(Snap(), lim) && gray != []
      modifies this`objs, this`gray, this`grayagain
      ensures Marking(Snap(), pend) && Within(Snap(), lim)
      ensures objs.Keys == old(objs.Keys)
      ensures Advanced(old(Snap()), Snap())
      ensures Whites(Snap()) < Whites(old(Snap())) || (Whites(Snap()) == Whites(old(Snap())) && |gray| < |old(gray)|)
    {
      hide Marking, Within;
      ghost var s := Snap();
      var o := gray[0];
      PopReady(s, pend, lim);
      gray := gray[1..];
      if objs[o].kind.Thread? {
        grayagain := [o] + grayagain;
        PopThread(s, pend);
      } else {
        objs := objs[o := objs[o].(color := Black)];
        PopBlack(s, pend);
      }
      ghost var s1 := Snap();
      WithinGrew(s, s1, o, lim);
      KidsReady(s1, o, pend + {o}, lim);
      MarkKids(Kids(Snap(), o), 3, pend + {o}, lim);
      PropagateDone(s, s1, Snap(), o, pend);
    }

    method PropagateAll(ghost pend: set<Ref>, ghost lim: set<Ref>)
      requires Marking(Snap(), pend) && Within(Snap(), lim)
      modifies this`objs, this`gray, this`grayagain
      ensures Marking(Snap(), pend) && Within(Snap(), lim) && gray == []
      ensures objs.Keys == old(objs.Keys)
      ensures Advanced(old(Snap()), Snap())
    {
      hide Marking, Within;
      AdvancedSelf(Snap());
      while gray != []
        invariant Marking(Snap(), pend) && Within(Snap(), lim) && Advanced(old(Snap()), Snap())
        invariant objs.Keys == old(objs.Keys)
        decreases Whites(Snap()), |gray|
      {
        ghost var before := Snap();
        PropagateMark(pend, lim);
        AdvancedTrans(old(Snap()), before, Snap());
      }
    }

    method MarkObject(x: Ref, ghost pend: set<Ref>, ghost lim: set<Ref>)
      requires Marking(Snap(), pend) && Within(Snap(), lim)
      requires !Plain(x) ==> x in objs && x in lim
      modifies this`objs, this`gray
      ensures Marking(Snap(), pend) && Within(Snap(), lim)
      ensures objs.Keys == old(objs.Keys)
      ensures Grew(old(Snap()), Snap()) && (Plain(x) || Marked(Snap(), x))
    {
      hide Marking, Within;
      var unseen := false;
      if !Plain(x) {
        unseen := GcBits.TestWhite(objs[x].color, objs[x].fixed);
      }
      if unseen {
        ReallyMark(x, pend, lim);
      }
    }

    method MarkMt(ghost pend: set<Ref>, ghost lim: set<Ref>)
      requires Marking(Snap(), pend) && Within(Snap(), lim)
      requires forall x :: x in mt ==> x in objs && x in lim
      modifies this`objs, this`gray
      ensures Marking(Snap(), pend) && Within(Snap(), lim)
      ensures objs.Keys == old(objs.Keys)
      ensures Grew(old(Snap()), Snap()) && forall x :: x in mt ==> Plain(x) || Marked(Snap(), x)
    {
      hide Marking, Within;
      for i := 0 to |mt|
        invariant Marking(Snap(), pend) && Within(Snap(), lim) && Grew(old(Snap()), Snap())
                    && objs.Keys == old(objs.Keys)
        invariant forall j :: 0 <= j < i ==> Plain(mt[j]) || Marked(Snap(), mt[j])
      {
        ghost var before := Snap();
        MarkObject(mt[i], pend, lim);
        GrewTrans(old(Snap()), before, Snap());
      }
    }

    ghost predicate RootsWithin(lim: set<Ref>)
      reads this
    {
      forall x :: IsRoot(Snap(), x) ==> x in lim
    }

    /** Marks the main thread, its globals and the registry. */
    method MarkMain(ghost lim: set<Ref>)
      requires Marking(Snap(), {}) && Within(Snap(), lim) && RootsWithin(lim)
      modifies this`objs, this`gray
      ensures Marking(Snap(), {}) && Within(Snap(), lim) && objs.Keys == old(objs.Keys)
      ensures Grew(old(Snap()), Snap()) && Marked(Snap(), mainthread) && Marked(Snap(), registry)
    {
      hide Marking, Within, Structure, Lively, Grew, Kids, Marked;
      ghost var s := Snap();
      MarkingRoots(s, {});
      assert IsRoot(s, mainthread) && IsRoot(s, registry);
      MarkObject(mainthread, {}, lim);
      ghost var s1 := Snap();
      GrewObj(s, s1, mainthread);
      KidsReady(s1, mainthread, {}, lim);
      if |objs[mainthread].slots| > 0 {
        FirstSlot(s1, mainthread);
        MarkObject(objs[mainthread].slots[0], {}, lim);
      } else {
        GrewSelf(s1);
      }
      ghost var s2 := Snap();
      MarkObject(registry, {}, lim);
      MainMarked(s, s1, s2, Snap());
    }

    /** Starts a cycle: the main thread, the globals, the registry and the metatables of basic types. */
    method MarkRoot(ghost lim: set<Ref>)
      requires Structure(Snap()) && Lively(Snap()) && Clean(Snap())
      requires forall x :: x in lim ==> x in objs
      requires forall x, k :: x in lim && IsEdge(Snap(), x, k) ==> k in lim
      requires RootsWithin(lim)
      modifies this`objs, this`gray, this`grayagain, this`phase
      ensures Inv(Snap()) && phase == Propagate && Within(Snap(), lim)
      ensures SameHeap(old(Snap()), Snap().(phase := old(phase)))
    {
      hide Marking, Within, Structure, Lively, Clean, Grew, SameHeap, Kids, Marked, Inv, IsEdge, Again, OpenUpvals;
      RootsThere(Snap());
      ghost var s := Snap();
      gray := [];
      grayagain := [];
      ghost var cleared := Snap();
      ClearLists(s, cleared);
      CleanMarking(cleared, lim);
      MarkMain(lim);
      ghost var s3 := Snap();
      assert forall x :: x in mt ==> IsRoot(s, x);
      MarkMt({}, lim);
      ghost var s4 := Snap();
      RootMarked(s, cleared, s3, s4);
      phase := Propagate;
      MarkingPhase(s4, Snap(), {}, lim);
      MarkedPhase(s4, Snap());
      MarkingInv(Snap(), {});
    }

    ghost function RestUpvals(i: nat): set<Ref>
      reads this
      requires i <= |uvhead|
    {
      set x | x in uvhead[i..]
    }

    /** Marks the values of the open upvalues met so far: their threads may be dead, or may have written since. */
    method RemarkUpvals(ghost base: set<Ref>, ghost lim: set<Ref>)
      requires Marking(Snap(), base + OpenUpvals(Snap())) && Within(Snap(), lim)
      modifies this`objs, this`gray
      ensures Marking(Snap(), base) && Within(Snap(), lim) && Grew(old(Snap()), Snap())
      ensures objs.Keys == old(objs.Keys)
    {
      hide Marking, Within, SameObj, Kids, OpenUpvals;
      assert uvhead[0..] == uvhead;
      UpvalSet(Snap(), RestUpvals(0));
      GrewSelf(Snap());
      for i := 0 to |uvhead|
        invariant Marking(Snap(), base + RestUpvals(i)) && Within(Snap(), lim) && Grew(old(Snap()), Snap())
        invariant objs.Keys == old(objs.Keys)
      {
        var uv := uvhead[i];
        ghost var s := Snap();
        ghost var pend := base + RestUpvals(i + 1);
        assert uvhead[i..] == [uv] + uvhead[i + 1..];
        assert base + RestUpvals(i) == pend + {uv};
        UpvalThere(s, pend + {uv}, uv);
        if objs[uv].color == Gray {
          UpvalWithin(s, uv, lim);
          KidsReady(s, uv, pend + {uv}, lim);
          MarkKids(Kids(Snap(), uv), 2, pend + {uv}, lim);
          KidsDone(s, Snap(), uv);
          GrewTrans(old(Snap()), s, Snap());
          Unpend(Snap(), uv, pend);
        } else {
          UnpendUnmarked(s, uv, pend);
        }
      }
      assert base + RestUpvals(|uvhead|) == base;
    }

    /** The marking that is left when the program is stopped for the atomic step, apart from the stacks. */
    method AtomicMark(ghost base: set<Ref>, ghost lim: set<Ref>)
      requires Inv(Snap()) && phase == Propagate && base == Again(Snap()) && Within(Snap(), lim) && RootsWithin(lim)
      modifies this`objs, this`gray, this`grayagain
      ensures Marking(Snap(), base) && Within(Snap(), lim) && gray == []
      ensures Advanced(old(Snap()), Snap()) && Marked(Snap(), running) && forall x :: x in mt ==> Marked(Snap(), x)
    {
      hide Inv, Marking, Within, Advanced, Grew, SameHeap, Kids, OpenUpvals, Again, Structure, Lively, Marked;
      ghost var s := Snap();
      InvMarking(s);
      InvRoots(s);
      assert IsRoot(s, running) && forall x :: x in mt ==> IsRoot(s, x);
      RemarkUpvals(base, lim);
      ghost var s1 := Snap();
      PropagateAll(base, lim);
      ghost var s2 := Snap();
      MarkObject(running, base, lim);
      ghost var s3 := Snap();
      MarkMt(base, lim);
      ghost var s4 := Snap();
      PropagateAll(base, lim);
      AtomicMarked(s, s1, s2, s3, s4, Snap());
    }

    /** The step nothing may interrupt: every remaining gray object is finished and the whites turn over. */
    method Atomic(ghost lim: set<Ref>)
      requires Inv(Snap()) && phase == Propagate && gray == [] && Within(Snap(), lim) && RootsWithin(lim)
      modifies this`objs, this`gray, this`grayagain, this`white, this`phase, this`sweepstrgc, this`sweepgc
      ensures Inv(Snap()) && phase == SweepString && white == Other(old(white)) && SameObjs(old(objs), objs)
      ensures forall x :: Alive(Snap(), x) ==> x in lim
    {
      hide Inv, Marking, Within, Advanced, SameHeap, Kids, OpenUpvals, Again, Structure, Lively, Marked,
             SameObjs, Alive;
      ghost var s := Snap();
      ghost var base := Again(s);
      InvMarking(s);
      AtomicMark(base, lim);
      ghost var s5 := Snap();
      gray := grayagain;
      grayagain := [];
      AdvancedAgain(s, s5);
      SecondList(s5, base, lim);
      ghost var s6 := Snap();
      PropagateAll({}, lim);
      ghost var s7 := Snap();
      AtomicRoots(s, s5, s6, s7);
      TurnOver(lim);
    }

    /** Everything alive is marked: the whites turn over and the sweep begins. */
    method TurnOver(ghost lim: set<Ref>)
      requires Marking(Snap(), {}) && gray == [] && Within(Snap(), lim)
      requires Marked(Snap(), mainthread) && Marked(Snap(), running) && Marked(Snap(), registry)
      requires forall x :: x in mt ==> Marked(Snap(), x)
      modifies this`white, this`phase, this`sweepstrgc, this`sweepgc
      ensures Inv(Snap()) && phase == SweepString && white == Other(old(white))
      ensures forall x :: Alive(Snap(), x) ==> x in lim
    {
      hide Inv, Marking, Within, Marked, Alive;
      ghost var s := Snap();
      MarkingWhite(s, {});
      white := GcBits.Flip(white);
      sweepstrgc := 0;
      sweepgc := 0;
      phase := SweepString;
      FlipInv(s);
      WithinMarked(s, lim);
    }

    // ---- barriers and closing upvalues

    /** The forward barrier: marks what a black object was made to refer to, or lets the object turn white. */
    method BarrierF(o: Ref, v: Ref)
      requires InvBut(Snap(), o) && o in objs && objs[o].color == Black && v in objs && IsWhite(objs[v].color)
      requires phase == Propagate ==> forall k :: k in Kids(Snap(), o) ==> Plain(k) || k == v || Marked(Snap(), k)
      modifies this`objs, this`gray
      ensures Inv(Snap()) && SweptTo(old(Snap()), Snap()) && SameObjs(old(objs), objs)
    {
      hide InvBut, Inv, Marking, Within, Kids, Marked, Sweeping, SweptTo, Grew, SameHeap, SameObjs;
      ghost var s := Snap();
      BlackPhase(s, o);
      if phase == Propagate {
        ghost var pend := Again(s) + OpenUpvals(s);
        ButMarking(s, o);
        MarkingWithin(s, pend + {o});
        NotMarked(s, v);
        ReallyMark(v, pend + {o}, objs.Keys);
        ForwardInv(s, Snap(), o, v, pend);
        GrewMarking(s, Snap(), pend + {o});
      } else {
        objs := objs[o := objs[o].(color := white)];
        ButSweeping(s, o);
        Whitened(s, o);
        ButPlace(s, Snap(), o);
        RecoloredObjs(s, o, white);
      }
    }

    method Barrier(o: Ref, v: Ref)
      requires InvBut(Snap(), o) && o in objs && (!Plain(v) ==> v in objs)
      requires phase == Propagate && objs[o].color == Black ==>
                 forall k :: k in Kids(Snap(), o) ==> Plain(k) || k == v || Marked(Snap(), k)
      requires phase == Propagate && Marked(Snap(), o) && objs[o].color != Black ==> GrayEntry(Snap(), o)
      modifies this`objs, this`gray
      ensures Inv(Snap()) && SweptTo(old(Snap()), Snap()) && SameObjs(old(objs), objs)
    {
      hide InvBut, Inv, Kids, SweptTo, SameObjs;
      if !Plain(v) && IsWhite(objs[v].color) && objs[o].color == Black {
        BarrierF(o, v);
      } else {
        ButInv(Snap(), o);
        SweptSelf(Snap());
        SameSelf(objs);
      }
    }

    /** Links a closed upvalue into the main list; a gray one must not wait, so it turns black and gets a barrier. */
    method LinkUpval(uv: Ref, ghost s: State, ghost th: Ref)
      requires Inv(s) && th in s.open && s.open[th] != [] && OwnedBy(s, s.open[th][0], th) && uv == s.open[th][0]
      requires Alive(s, uv) && Snap() == ClosedUpvalue(s, th).(rootgc := s.rootgc, sweepgc := s.sweepgc)
      modifies this`objs, this`gray, this`rootgc, this`sweepgc
      ensures Inv(Snap()) && SweptTo(s, Snap())
      ensures rootgc == [uv] + s.rootgc && sweepgc == Shifted(s.sweepgc, 0)
      ensures SameObjs(ClosedUpvalue(s, th).objs, objs)
    {
      hide InvBut, Inv, Kids, SweptTo, SameObjs, Marked, ClosedUpvalue;
      ClosedShape(s, th);
      UpvalClosed(s, th);
      ClosedBut(s, th);
      ClosedSweptTo(s, th);
      rootgc := [uv] + rootgc;
      sweepgc := if sweepgc > 0 then sweepgc + 1 else 0;
      if objs[uv].color == Gray {
        if phase == Propagate {
          objs := objs[uv := objs[uv].(color := Black)];
          ghost var s1 := Snap();
          Barrier(uv, objs[uv].slots[0]);
          SweptTrans(s, s1, Snap());
          SameTrans(ClosedUpvalue(s, th).objs, s1.objs, objs);
        } else {
          objs := objs[uv := objs[uv].(color := white)];
          ButInv(Snap(), uv);
        }
      } else {
        NotGray(Snap(), uv);
        ButInv(Snap(), uv);
      }
    }

    /** Takes the topmost open upvalue off its thread, dead. */
    method FreeHead(th: Ref)
      requires Inv(Snap()) && th in open && open[th] != [] && Dead(Snap(), open[th][0])
      modifies this`objs, this`open, this`uvhead
      ensures Inv(Snap()) && SweptTo(old(Snap()), Snap())
      ensures open == old(open)[th := old(open[th][1..])] && |uvhead| == |old(uvhead)| - 1
      ensures objs == old(objs) - {old(open[th][0])}
    {
      hide Inv, SweptTo, Without, FreedUpval, Sweeping;
      ghost var s := Snap();
      var uv := open[th][0];
      FreedUpvalShape(s, th, 0);
      RemoveFirst(open[th]);
      open := open[th := open[th][1..]];
      uvhead := Without(uvhead, uv);
      objs := objs - {uv};
      FreeUpval(s, th, 0);
    }

    /** Takes the topmost open upvalue off its thread: a dead one is freed, any other takes its value along. */
    method CloseHead(th: Ref)
      requires Inv(Snap()) && th in open && open[th] != []
      modifies this`objs, this`gray, this`rootgc, this`sweepgc, this`open, this`uvhead
      ensures Inv(Snap()) && SweptTo(old(Snap()), Snap())
      ensures open == old(open)[th := old(open[th][1..])] && |uvhead| == |old(uvhead)| - 1
      ensures old(Dead(Snap(), open[th][0])) ==> rootgc == old(rootgc) && sweepgc == old(sweepgc)
      ensures !old(Dead(Snap(), open[th][0])) ==>
                rootgc == [old(open[th][0])] + old(rootgc) && sweepgc == Shifted(old(sweepgc), 0)
      ensures SameObjs(HeadClosed(old(Snap()), th), objs)
    {
      hide Inv, SweptTo, SameObjs, Without, ClosedUpvalue, OwnedBy, Shifted, HeadClosed;
      ghost var s := Snap();
      InvOwned(s, th, 0);
      HeadIs(s, th);
      HeadHere(s, th);
      var uv := open[th][0];
      InvWhite(s);
      var dead := GcBits.TestDead(white, objs[uv].color, objs[uv].fixed);
      if dead {
        FreeHead(th);
        SameSelf(objs);
      } else {
        UpvalClosed(s, th);
        ClosedParts(s, th);
        var v := objs[objs[uv].kind.owner].slots[objs[uv].kind.level];
        open := open[th := open[th][1..]];
        uvhead := Without(uvhead, uv);
        objs := objs[uv := Obj(ClosedUpval, objs[uv].color, objs[uv].fixed, [v])];
        LinkUpval(uv, s, th);
      }
    }

    /** Closes every open upvalue of a thread at or above a stack level. */
    method CloseUpvals(th: Ref, level: nat)
      requires Inv(Snap()) && th in open
      modifies this`objs, this`gray, this`rootgc, this`sweepgc, this`open, this`uvhead
      ensures Inv(Snap()) && SweptTo(old(Snap()), Snap())
      ensures open.Keys == old(open).Keys && ClosedFrom(old(Snap()), Snap(), th, level)
      ensures forall u :: u in open[th] && u in objs && objs[u].kind.OpenUpval? ==> objs[u].kind.level < level
    {
      hide InvBut, Inv, Kids, SweptTo, Dead, ClosedFrom, HeadClosed, SameObjs;
      SweptSelf(Snap());
      ClosedNone(Snap(), th, level);
      while open[th] != [] && objs[UpvalHere(Snap(), th, 0)].kind.level >= level
        invariant Inv(Snap()) && SweptTo(old(Snap()), Snap()) && open.Keys == old(open).Keys
        invariant ClosedFrom(old(Snap()), Snap(), th, level)
        decreases |open[th]|
      {
        ghost var s := Snap();
        CloseHead(th);
        ClosedNext(old(Snap()), s, Snap(), th, level);
        SweptTrans(old(Snap()), s, Snap());
      }
      LowerLevels(Snap(), th, level);
    }

    // ---- sweeping

    /** Sweeps the open upvalues of one thread. */
    method SweepOpen(th: Ref)
      requires Sweeping(Snap()) && phase == Sweep && th in open
      modifies this`objs, this`open, this`uvhead
      ensures Sweeping(Snap()) && SweptTo(old(Snap()), Snap()) && open.Keys == old(open).Keys
      ensures forall u :: u in open[th] ==> u in objs && objs[u].color == white
      ensures |uvhead| <= |old(uvhead)|
    {
      hide Sweeping, Kids, SweptTo, Without, FreedUpval, Inv;
      SweptSelf(Snap());
      var p := 0;
      while p < |open[th]|
        invariant Sweeping(Snap()) && SweptTo(old(Snap()), Snap()) && open.Keys == old(open).Keys
        invariant p <= |open[th]| && |uvhead| <= |old(uvhead)|
        invariant forall i :: 0 <= i < p ==> open[th][i] in objs && objs[open[th][i]].color == white
        decreases |open[th]| - p
      {
        ghost var s := Snap();
        SweepingInv(s);
        InvOwned(s, th, p);
        var curr := open[th][p];
        SweepingLegal(s, curr);
        var spared := GcBits.TestSpared(white, objs[curr].color, objs[curr].fixed);
        if spared {
          var c := GcBits.Whiten(white, objs[curr].color, objs[curr].fixed);
          objs := objs[curr := objs[curr].(color := c)];
          p := p + 1;
          Whitened(s, curr);
        } else {
          DropUpval(th, p);
        }
        SweptTrans(old(Snap()), s, Snap());
      }
    }

    /** Unlinks and frees a dead open upvalue. */
    method DropUpval(th: Ref, p: nat)
      requires Sweeping(Snap()) && Inv(Snap()) && th in open && p < |open[th]| && Dead(Snap(), open[th][p])
      modifies this`objs, this`open, this`uvhead
      ensures Sweeping(Snap()) && SweptTo(old(Snap()), Snap())
      ensures open.Keys == old(open).Keys && |open[th]| == |old(open[th])| - 1 && |uvhead| == |old(uvhead)| - 1
      ensures objs == old(objs) - {old(open[th][p])}
      ensures forall i :: 0 <= i < p ==> open[th][i] == old(open[th])[i] && old(open[th])[i] != old(open[th][p])
    {
      hide Sweeping, SweptTo, Inv, Without, FreedUpval;
      ghost var s := Snap();
      var curr := open[th][p];
      FreeUpval(s, th, p);
      FreedUpvalShape(s, th, p);
      objs := objs - {curr};
      open := open[th := RemoveAt(open[th], p)];
      uvhead := Without(uvhead, curr);
    }

    /** Sweeps one bucket of the string table. */
    method SweepStrings(b: nat)
      requires Sweeping(Snap()) && phase == SweepString && b < |strt|
      modifies this`objs, this`strt, this`nuse
      ensures Sweeping(Snap()) && SweptTo(old(Snap()), Snap()) && |strt| == |old(strt)|
      ensures forall x :: x in strt[b] ==> x in objs && objs[x].color == white
    {
      hide Sweeping, SweptTo, Kids;
      SweptSelf(Snap());
      var p := 0;
      while p < |strt[b]|
        invariant Sweeping(Snap()) && SweptTo(old(Snap()), Snap())
        invariant |strt| == |old(strt)| && p <= |strt[b]|
        invariant forall i :: 0 <= i < p ==> strt[b][i] in objs && objs[strt[b][i]].color == white
        decreases |strt[b]| - p
      {
        ghost var s := Snap();
        SweepingBucket(s, b, p);
        var curr := strt[b][p];
        SweepingLegal(s, curr);
        var spared := GcBits.TestSpared(white, objs[curr].color, objs[curr].fixed);
        if spared {
          var c := GcBits.Whiten(white, objs[curr].color, objs[curr].fixed);
          objs := objs[curr := objs[curr].(color := c)];
          p := p + 1;
          Whitened(s, curr);
        } else {
          FreeString(s, b, p);
          objs := objs - {curr};
          strt := strt[b := RemoveAt(strt[b], p)];
          nuse := nuse - 1;
        }
        SweptTrans(old(Snap()), s, Snap());
      }
    }

    /** Closes the open upvalues left of a dead thread; `j` is its place in the main list, before and after. */
    method CloseAll(j0: nat) returns (j: nat)
      requires Sweeping(Snap()) && phase == Sweep && sweepgc <= j0 < |rootgc| && Dead(Snap(), rootgc[j0])
      requires rootgc[j0] in open && forall u :: u in open[rootgc[j0]] ==> u in objs && objs[u].color == white
      modifies this`objs, this`gray, this`rootgc, this`sweepgc, this`open, this`uvhead
      ensures Sweeping(Snap()) && SweptTo(old(Snap()), Snap())
      ensures sweepgc <= j < |rootgc| && rootgc[j] == old(rootgc[j0]) && Dead(Snap(), rootgc[j])
      ensures rootgc[j] in open && open[rootgc[j]] == []
      ensures |uvhead| + |rootgc| - sweepgc <= |old(uvhead)| + |old(rootgc)| - old(sweepgc)
    {
      hide Sweeping, SweptTo, Kids, Inv, Structure, Lively, Dead;
      var curr := rootgc[j0];
      ghost var s := Snap();
      ghost var n := 0;
      SweptSelf(s);
      SweepingInv(s);
      j := j0;
      while open[curr] != []
        invariant Inv(Snap()) && SweptTo(s, Snap())
        invariant sweepgc <= j < |rootgc| && rootgc[j] == curr && Dead(Snap(), curr)
        invariant curr in open && n <= |s.open[curr]| && open[curr] == s.open[curr][n..]
        invariant |uvhead| + |rootgc| - sweepgc <= |s.uvhead| + |s.rootgc| - s.sweepgc
        decreases |open[curr]|
      {
        ghost var before := Snap();
        StillAlive(s, before, s.open[curr], open[curr][0]);
        CloseHead(curr);
        j, n := j + 1, n + 1;
        SweptTrans(s, before, Snap());
        StillDead(before, Snap(), j);
      }
      SweepingInv(Snap());
    }

    /** Frees the dead object at `j0`; a thread first closes what is left of its open upvalues. */
    method FreeObject(j0: nat)
      requires Sweeping(Snap()) && phase == Sweep && sweepgc <= j0 < |rootgc| && Dead(Snap(), rootgc[j0])
      requires rootgc[j0] in open ==> forall u :: u in open[rootgc[j0]] ==> u in objs && objs[u].color == white
      modifies this`objs, this`gray, this`rootgc, this`sweepgc, this`open, this`uvhead
      ensures Sweeping(Snap()) && SweptTo(old(Snap()), Snap())
      ensures |uvhead| + |rootgc| - sweepgc < |old(uvhead)| + |old(rootgc)| - old(sweepgc)
    {
      hide Sweeping, SweptTo, Kids, FreedObject, RemoveAt;
      var j := j0;
      SweptSelf(Snap());
      if rootgc[j0] in open {
        j := CloseAll(j0);
      }
      ghost var s := Snap();
      var curr := rootgc[j];
      SweepingOwns(s, curr);
      FreeRoot(s, j);
      FreedShape(s, j);
      rootgc := RemoveAt(rootgc, j);
      open := open - {curr};
      objs := objs - {curr};
      SweptTrans(old(Snap()), s, Snap());
    }
  
    /** Sweeps up to `count` objects of the main list. */
    method SweepRoot(count: nat)
      requires Sweeping(Snap()) && phase == Sweep
      modifies this`objs, this`gray, this`rootgc, this`sweepgc, this`open, this`uvhead
      ensures Sweeping(Snap()) && SweptTo(old(Snap()), Snap())
      ensures sweepgc <= |rootgc|
      ensures sweepgc == |rootgc| ||
              |uvhead| + |rootgc| - sweepgc <= |old(uvhead)| + |old(rootgc)| - old(sweepgc) - count
    {
      hide Sweeping, SweptTo, Kids;
      SweptSelf(Snap());
      SweepPlace(Snap());
      var n := 0;
      while sweepgc < |rootgc| && n < count
        invariant Sweeping(Snap()) && SweptTo(old(Snap()), Snap()) && n <= count && sweepgc <= |rootgc|
        invariant |uvhead| + |rootgc| - sweepgc <= |old(uvhead)| + |old(rootgc)| - old(sweepgc) - n
        decreases count - n
      {
        ghost var s := Snap();
        var curr := rootgc[sweepgc];
        SweepObject(curr);
        SweptTrans(old(Snap()), s, Snap());
        SweepPlace(Snap());
        n := n + 1;
      }
    }

    /** The object the sweep stands at: whitened and passed, or freed. */
    method SweepObject(curr: Ref)
      requires Sweeping(Snap()) && phase == Sweep && sweepgc < |rootgc| && curr == rootgc[sweepgc]
      modifies this`objs, this`gray, this`rootgc, this`sweepgc, this`open, this`uvhead
      ensures Sweeping(Snap()) && SweptTo(old(Snap()), Snap())
      ensures |uvhead| + |rootgc| - sweepgc < |old(uvhead)| + |old(rootgc)| - old(sweepgc)
    {
      hide Sweeping, SweptTo, Kids;
      SweptSelf(Snap());
      SweepHere(Snap());
      if objs[curr].kind.Thread? {
        SweepOpen(curr);
      }
      ghost var s1 := Snap();
      SweepHere(s1);
      SweepingLegal(s1, curr);
      var spared := GcBits.TestSpared(white, objs[curr].color, objs[curr].fixed);
      if spared {
        var c := GcBits.Whiten(white, objs[curr].color, objs[curr].fixed);
        objs := objs[curr := objs[curr].(color := c)];
        Whitened(s1, curr);
        ghost var s2 := Snap();
        SweptTrans(old(Snap()), s1, s2);
        OwnedWhite(s2, curr);
        Passed(s2);
        sweepgc := sweepgc + 1;
        SweptTrans(old(Snap()), s2, Snap());
      } else {
        FreeObject(sweepgc);
        SweptTrans(old(Snap()), s1, Snap());
      }
    }

    // ---- the string table's size

    /** Rehashes the string table to another size; not while strings are swept. */
    method Resize(newsize: nat)
      requires Inv(Snap()) && PowerOfTwo(newsize)
      modifies this`strt
      ensures Inv(Snap())
      ensures if phase == SweepString then strt == old(strt) else |strt| == newsize
    {
      hide Inv, PowerOfTwo, Rehashed, StringTable, Bucket;
      if phase == SweepString {
        return;
      }
      ghost var s := Snap();
      PowerPositive(newsize);
      var newhash := seq(newsize, _ => []);
      RehashedNone(s, newhash);
      for i := 0 to |strt|
        invariant Snap() == s && |newhash| == newsize && Rehashed(s, newhash, i, 0)
      {
        for j := 0 to |strt[i]|
          invariant Snap() == s && |newhash| == newsize && Rehashed(s, newhash, i, j)
        {
          InvBucket(s, i, j);
          var p := strt[i][j];
          var h1 := Bucket(objs[p].kind.text, newsize);
          RehashedNext(s, newhash, i, j);
          newhash := newhash[h1 := [p] + newhash[h1]];
        }
        RehashedBucket(s, newhash, i);
      }
      InvStrings(s);
      RehashedAll(s, newhash);
      strt := newhash;
      ResizedInv(s, Snap());
    }

    /** Halves a string table that has become too empty. */
    method CheckSizes()
      requires Inv(Snap())
      modifies this`strt
      ensures Inv(Snap())
    {
      hide Inv;
      if nuse < |strt| / 4 && |strt| > MINSTRTABSIZE * 2 {
        InvPower(Snap());
        Resize(|strt| / 2);
      }
    }

    // ---- steps

    method SweepStringStep()
      requires Inv(Snap()) && phase == SweepString
      modifies this`objs, this`strt, this`nuse, this`sweepstrgc, this`phase
      ensures Inv(Snap()) && SweptTo(old(Snap()), Snap())
      ensures phase == Sweep || (phase == SweepString && |strt| == |old(strt)| && sweepstrgc == old(sweepstrgc) + 1)
    {
      hide Inv, Sweeping, SweptTo;
      ghost var s := Snap();
      SweepingInv(s);
      SweepStrings(sweepstrgc);
      ghost var s1 := Snap();
      BucketPassed(s1);
      sweepstrgc := sweepstrgc + 1;
      ghost var s2 := Snap();
      SweptTrans(s, s1, s2);
      if sweepstrgc >= |strt| {
        phase := Sweep;
        StringsDone(s2);
        SweptTrans(s, s2, Snap());
      }
      SweepingInv(Snap());
    }

    method SweepStep()
      requires Inv(Snap()) && phase == Sweep
      modifies this`objs, this`gray, this`rootgc, this`sweepgc, this`open, this`uvhead, this`strt, this`phase
      ensures Inv(Snap()) && SweptTo(old(Snap()), Snap())
      ensures phase == Finalize || (phase == Sweep && sweepgc <= |rootgc| &&
                |uvhead| + |rootgc| - sweepgc < |old(uvhead)| + |old(rootgc)| - old(sweepgc))
    {
      hide Inv, Sweeping, SweptTo;
      SweepingInv(Snap());
      SweepRoot(GCSWEEPMAX);
      SweepingInv(Snap());
      if sweepgc == |rootgc| {
        ghost var s1 := Snap();
        CheckSizes();
        ghost var s2 := Snap();
        ResizedSwept(s1, s2);
        SweptTrans(old(Snap()), s1, s2);
        SweepingInv(s2);
        phase := Finalize;
        FinalizeInv(s2);
        SweptTrans(old(Snap()), s2, Snap());
      }
    }

    /** One step of the collector. `lim` bounds what a cycle may keep. */
    method SingleStep(ghost lim: set<Ref>)
      requires Inv(Snap()) && Limits(Snap(), lim)
      modifies this`objs, this`gray, this`grayagain, this`phase, this`white, this`rootgc, this`sweepgc, this`open,
               this`uvhead, this`strt, this`sweepstrgc, this`nuse
      ensures Inv(Snap()) && Kept(old(Snap()), Snap())
      ensures Less(Snap(), old(Snap()))
      ensures NextLimits(old(Snap()), Snap(), lim)
    {
      hide Inv, SweptTo, Kept, Within, IsEdge, Structure, Lively, Clean, SameHeap, SameObjs, Advanced, IsRoot,
             RevivedOnly;
      ghost var s := Snap();
      match phase {
        case Pause =>
          PauseLimits(s, lim);
          MarkRoot(lim);
          MarkedRoot(s, Snap());
        case Propagate =>
          PropagateLimits(s, lim);
          if gray != [] {
            InvMarking(s);
            PropagateMark(Again(s) + OpenUpvals(s), lim);
            PropagateStep(s, Snap());
          } else {
            Atomic(lim);
            ObjsKept(s, Snap());
          }
        case SweepString =>
          PlaceInv(s);
          SweepStringStep();
          SweptNext(s, Snap());
        case Sweep =>
          PlaceInv(s);
          SweepStep();
          SweptNext(s, Snap());
        case Finalize =>
          phase := Pause;
          PauseInv(s);
      }
    }

    /** The one uninterrupted cycle of a full collection: everything left was within `lim` when it began. */
    method WholeCycle(ghost t: State, ghost lim: set<Ref>)
      requires Inv(Snap()) && phase == Finalize && Snap() == t && lim == ReachSet(t)
      modifies this`objs, this`gray, this`grayagain, this`phase, this`white, this`rootgc, this`sweepgc, this`open,
               this`uvhead, this`strt, this`sweepstrgc, this`nuse
      ensures Inv(Snap()) && phase == Pause && SameGraph(t, Snap()) && Leaves(Snap(), lim)
    {
      hide Inv, Kept, Reachable, Limits, NextLimits, Less, Leaves, SameGraph, Structure, Lively, Clean, SameHeap,
             IsEdge, Work;
      ReachLimits(t);
      MarkRoot(lim);
      MarkedRoot(t, Snap());
      KeptGraph(t, Snap());
      StartLeaves(Snap(), lim);
      while phase != Pause
        invariant Inv(Snap()) && SameGraph(t, Snap()) && Leaves(Snap(), lim)
        decreases Order(Snap()), Work(Snap()), Queue(Snap())
      {
        ghost var before := Snap();
        LeavesLimits(before, lim);
        SingleStep(lim);
        KeptGraph(before, Snap());
        GraphTrans(t, before, Snap());
        NextLeaves(before, Snap(), lim);
        LessOrder(before, Snap());
      }
    }

    /** A whole collection from whatever phase the collector is in: exactly what is reachable, or fixed, is left. */
    method FullGc()
      requires Inv(Snap())
      modifies this`objs, this`gray, this`grayagain, this`phase, this`white, this`rootgc, this`sweepgc, this`open,
               this`uvhead, this`strt, this`sweepstrgc, this`nuse
      ensures Inv(Snap()) && phase == Pause && SameGraph(old(Snap()), Snap())
      ensures forall x :: x in objs ==> Reachable(old(Snap()), x) || objs[x].fixed
      ensures forall x :: Reachable(old(Snap()), x) || (x in old(objs) && old(objs)[x].fixed) ==> x in objs
    {
      hide Inv, Kept, Reachable, Limits, NextLimits, Less, Leaves, SameGraph, Work;
      ghost var s := Snap();
      GraphSelf(s);
      if phase == Pause || phase == Propagate {
        sweepstrgc := 0;
        sweepgc := 0;
        gray := [];
        grayagain := [];
        phase := SweepString;
        ResetInv(s, Snap());
      }
      while phase != Finalize
        invariant Inv(Snap()) && SameGraph(s, Snap())
        invariant phase == SweepString || phase == Sweep || phase == Finalize
        decreases Order(Snap()), Work(Snap()), Queue(Snap())
      {
        ghost var before := Snap();
        NoLimits(before);
        SingleStep({});
        KeptGraph(before, Snap());
        GraphTrans(s, before, Snap());
        NextSweep(before, Snap());
        LessOrder(before, Snap());
      }
      ghost var t := Snap();
      WholeCycle(t, ReachSet(t));
      GraphTrans(s, t, Snap());
      OnlyReachable(s, t, Snap());
      GraphThere(s, Snap());
    }
  
    // ---- the program

    /** A new object, linked at the head of the main list. */
    method NewObject(at: Ref, kind: Kind, slots: seq<Ref>)
      requires Inv(Snap()) && at !in objs && !Plain(at) && OnRoot(kind) && !kind.Udata?
      requires forall k :: k in slots ==> GoodKid(Snap(), kind, k)
      modifies this`objs, this`rootgc, this`sweepgc, this`open
      ensures Inv(Snap()) && objs == old(objs)[at := Obj(kind, white, false, slots)]
    {
      hide Inv, GoodKid;
      LinkedInv(Snap(), at, kind, slots, 0);
      objs := objs[at := Obj(kind, white, false, slots)];
      rootgc := InsertAt(rootgc, 0, at);
      sweepgc := Shifted(sweepgc, 0);
      if kind.Thread? {
        open := open[at := []];
      }
    }

    /** A new userdata, linked after the main thread. */
    method NewUdata(at: Ref, slots: seq<Ref>)
      requires Inv(Snap()) && at !in objs && !Plain(at)
      requires forall k :: k in slots ==> GoodKid(Snap(), Udata, k)
      modifies this`objs, this`rootgc, this`sweepgc
      ensures Inv(Snap()) && objs == old(objs)[at := Obj(Udata, white, false, slots)]
    {
      hide Inv, GoodKid;
      InvMain(Snap());
      var p := IndexOf(rootgc, mainthread) + 1;
      LinkedInv(Snap(), at, Udata, slots, p);
      objs := objs[at := Obj(Udata, white, false, slots)];
      rootgc := InsertAt(rootgc, p, at);
      sweepgc := Shifted(sweepgc, p);
    }

    /** Stores into a table, or grows it by one reference; the backward barrier follows the store. */
    method StoreTable(t: Ref, i: nat, v: Ref)
      requires Inv(Snap()) && Alive(Snap(), t) && objs[t].kind.Table? && i <= |objs[t].slots|
                 && GoodKid(Snap(), Table, v)
      modifies this`objs, this`grayagain
      ensures Inv(Snap()) && StoredInto(old(objs), t, i, v, objs)
    {
      hide Inv, InvBut, SameObjs, Put, CanStore, Kids, StoredInto;
      ghost var s := Snap();
      PutStore(s, t, i, v);
      StoredBut(s, t, Put(objs[t].slots, i, v));
      objs := objs[t := objs[t].(slots := Put(objs[t].slots, i, v))];
      ghost var s1 := Snap();
      SameSelf(objs);
      if !Plain(v) && IsWhite(objs[v].color) && objs[t].color == Black {
        BarrierBack(t);
      } else {
        NotMissing(s, t, i, v);
        ButInv(s1, t);
      }
      PutPlaces(s.objs, t, i, v, objs);
    }

    /** The backward barrier: a black table turns gray again. */
    method BarrierBack(t: Ref)
      requires InvBut(Snap(), t) && t in objs && objs[t].color == Black && objs[t].kind.Table?
      modifies this`objs, this`grayagain
      ensures Inv(Snap()) && SameObjs(old(objs), objs)
    {
      hide Inv, InvBut;
      BackedInv(Snap(), t);
      objs := objs[t := objs[t].(color := Gray)];
      grayagain := [t] + grayagain;
    }

    /** Stores into a function, a prototype or a userdata; the forward barrier follows the store. */
    method StoreObject(o: Ref, i: nat, v: Ref)
      requires Inv(Snap()) && Alive(Snap(), o) && i <= |objs[o].slots| && GoodKid(Snap(), objs[o].kind, v)
      requires objs[o].kind.Func? || objs[o].kind.Proto? || objs[o].kind.Udata?
      modifies this`objs, this`gray
      ensures Inv(Snap()) && StoredInto(old(objs), o, i, v, objs)
    {
      hide Inv, InvBut, SameObjs, Put, CanStore, Kids, StoredInto;
      ghost var s := Snap();
      PutStore(s, o, i, v);
      StoredBut(s, o, Put(objs[o].slots, i, v));
      objs := objs[o := objs[o].(slots := Put(objs[o].slots, i, v))];
      OnlyMissing(s, o, i, v);
      Barrier(o, v);
      PutPlaces(s.objs, o, i, v, objs);
    }

    /** Writes or pushes a stack slot, or cuts the stack to `n` slots: a thread needs no barrier. */
    method WriteStack(th: Ref, i: nat, v: Ref)
      requires Inv(Snap()) && th in objs && objs[th].kind.Thread? && i <= |objs[th].slots| && GoodKid(Snap(), Thread, v)
      modifies this`objs
      ensures Inv(Snap()) && th in objs && Placed(old(objs[th].slots), objs[th].slots, i, v)
      ensures objs == old(objs)[th := old(objs[th]).(slots := objs[th].slots)]
    {
      hide Inv, InvBut, Put, CanStore, Kids, SameObjs, Placed;
      ghost var s := Snap();
      PutStore(s, th, i, v);
      StoredBut(s, th, Put(objs[th].slots, i, v));
      objs := objs[th := objs[th].(slots := Put(objs[th].slots, i, v))];
      ThreadGray(s, th, objs[th].slots);
      ButInv(Snap(), th);
      PutIs(s.objs[th].slots, i, v);
    }

    method CutStack(th: Ref, n: nat)
      requires Inv(Snap()) && th in objs && objs[th].kind.Thread? && n <= |objs[th].slots|
      requires forall u :: u in objs && objs[u].kind.OpenUpval? && objs[u].kind.owner == th ==> objs[u].kind.level < n
      modifies this`objs
      ensures Inv(Snap()) && objs == old(objs)[th := old(objs[th]).(slots := old(objs[th].slots[..n]))]
    {
      hide Inv, InvBut, Kids;
      ghost var s := Snap();
      StoredBut(s, th, objs[th].slots[..n]);
      objs := objs[th := objs[th].(slots := objs[th].slots[..n])];
      ThreadGray(s, th, objs[th].slots);
      ButInv(Snap(), th);
    }

    /** Assigns to an upvalue: an open one writes the stack slot it shares, a closed one needs a barrier. */
    method SetUpval(uv: Ref, v: Ref)
      requires Inv(Snap()) && Alive(Snap(), uv) && IsUpval(objs[uv].kind) && GoodKid(Snap(), ClosedUpval, v)
      modifies this`objs, this`gray
      ensures Inv(Snap()) && uv in objs && Kids(Snap(), uv) == [v]
      ensures SameObjs(Assigned(old(Snap()), uv, v), objs)
    {
      hide Inv, InvBut, SameObjs, Kids;
      ghost var s := Snap();
      UpvalShape(s, uv);
      if objs[uv].kind.OpenUpval? {
        var th, level := objs[uv].kind.owner, objs[uv].kind.level;
        SharedSlot(s, uv, v);
        WriteStack(th, level, v);
        PlacedIs(s.objs[th].slots, objs[th].slots, level, v);
        SameSelf(objs);
      } else {
        SetClosed(s, uv, v);
        objs := objs[uv := objs[uv].(slots := [v])];
        ghost var s1 := Snap();
        Barrier(uv, v);
        ObjsKids(s1, Snap(), uv);
        SameKeys(s1.objs, objs);
      }
    }

    /** The upvalue for a stack slot: the one that is there, brought back if it was dead, or a new one. */
    method FindUpval(th: Ref, level: nat, at: Ref) returns (uv: Ref)
      requires Inv(Snap()) && Alive(Snap(), th) && objs[th].kind.Thread? && level < |objs[th].slots|
      requires at !in objs && !Plain(at)
      modifies this`objs, this`open, this`uvhead
      ensures Inv(Snap()) && Alive(Snap(), uv) && objs[uv].kind == OpenUpval(th, level)
      ensures uv == at || uv in old(objs)
      ensures SameObjs(if uv == at then old(objs)[at := Obj(OpenUpval(th, level), white, false, [])]
                else old(objs), objs)
    {
      hide Inv, SameObjs, Kids, Belongs, Sweeping, SameHeap;
      ghost var s := Snap();
      InvThread(s, th);
      SameSelf(objs);
      var j := 0;
      while j < |open[th]| && objs[UpvalHere(Snap(), th, j)].kind.level >= level
        invariant Snap() == s && j <= |open[th]|
        invariant forall i :: 0 <= i < j ==> Above(s, th, i, level)
        decreases |open[th]| - j
      {
        var p := open[th][j];
        InvOwned(s, th, j);
        if objs[p].kind.level == level {
          InvWhite(s);
          var dead := GcBits.TestDead(white, objs[p].color, objs[p].fixed);
          if dead {
            FoundAlive(s, th, j);
            RecoloredObjs(s, p, white);
            var c := GcBits.Revive(white, objs[p].color, objs[p].fixed);
            objs := objs[p := objs[p].(color := c)];
          }
          return p;
        }
        j := j + 1;
      }
      PlaceFound(s, th, level, j);
      NewUpvalInv(s, at, th, level, j);
      objs := objs[at := Obj(OpenUpval(th, level), white, false, [])];
      open := open[th := InsertAt(open[th], j, at)];
      uvhead := [at] + uvhead;
      SameSelf(objs);
      return at;
    }

    /** The string with these bytes: the one in the table, brought back if it was dead, or a new one. */
    method InternString(text: seq<bv8>, at: Ref) returns (ts: Ref)
      requires Inv(Snap()) && at !in objs && !Plain(at)
      modifies this`objs, this`strt, this`nuse
      ensures Inv(Snap()) && Alive(Snap(), ts) && objs[ts].kind == Str(text)
      ensures forall x :: x in objs && objs[x].kind == Str(text) ==> x == ts
      ensures SameObjs(if ts in old(objs) then old(objs) else old(objs)[at := Obj(Str(text), white, false, [])], objs)
    {
      hide Inv, SameObjs, Kids, Bucket, Sweeping, SameHeap, InBucket, NoString, Chain, Hash;
      ghost var s := Snap();
      InvTable(s);
      SameSelf(objs);
      var h := Bucket(text, |strt|);
      for j := 0 to |strt[h]|
        invariant Snap() == s
        invariant forall i :: 0 <= i < j ==> strt[h][i] in objs && objs[strt[h][i]].kind != Str(text)
      {
        ts := strt[h][j];
        InvBucket(s, h, j);
        BucketString(s, h, j);
        if objs[ts].kind.text == text {
          InvWhite(s);
          var dead := GcBits.TestDead(white, objs[ts].color, objs[ts].fixed);
          if dead {
            StringAlive(s, ts);
            RecoloredObjs(s, ts, white);
            var c := GcBits.Revive(white, objs[ts].color, objs[ts].fixed);
            objs := objs[ts := objs[ts].(color := c)];
          }
          OneString(Snap(), ts);
          return;
        }
      }
      NotInTable(s, text);
      ts := NewString(text, at, h);
      SameSelf(objs);
    }

    method NewString(text: seq<bv8>, at: Ref, h: nat) returns (ts: Ref)
      requires Inv(Snap()) && at !in objs && !Plain(at) && NoString(Snap(), text)
      requires |strt| > 0 && h == Bucket(text, |strt|)
      modifies this`objs, this`strt, this`nuse
      ensures Inv(Snap()) && ts == at && objs == old(objs)[at := Obj(Str(text), white, false, [])]
      ensures forall x :: x in objs && objs[x].kind == Str(text) ==> x == ts
    {
      hide Inv, Kids, NoString, Bucket;
      ghost var s := Snap();
      ChainInv(s, at, text);
      ts := at;
      objs := objs[at := Obj(Str(text), white, false, [])];
      strt := strt[h := [at] + strt[h]];
      nuse := nuse + 1;
      OneString(Snap(), ts);
      if nuse > |strt| && |strt| <= MAX_INT / 2 {
        InvDouble(Snap());
        Resize(|strt| * 2);
      }
    }

    /** Keeps a string for good, reachable or not. */
    method FixString(ts: Ref)
      requires Inv(Snap()) && ts in objs && objs[ts].kind.Str?
      modifies this`objs
      ensures Inv(Snap()) && objs == old(objs)[ts := old(objs[ts]).(fixed := true)]
    {
      hide Inv;
      FixedInv(Snap(), ts);
      objs := objs[ts := objs[ts].(fixed := true)];
    }

    /** Another thread runs. */
    method Resume(th: Ref)
      requires Inv(Snap()) && Alive(Snap(), th) && objs[th].kind.Thread?
      modifies this`running
      ensures Inv(Snap()) && running == th
    {
      hide Inv;
      InvRootTables(Snap());
      RootsInv(Snap(), Snap().(running := th));
      running := th;
    }

    /** The metatables of the basic types change. */
    method SetBasicMetatables(tables: seq<Ref>)
      requires Inv(Snap()) && forall x :: x in tables ==> Alive(Snap(), x) && objs[x].kind.Table?
      modifies this`mt
      ensures Inv(Snap()) && mt == tables
    {
      hide Inv;
      InvRootTables(Snap());
      RootsInv(Snap(), Snap().(mt := tables));
      mt := tables;
    }

    // ---- whole runs

    /** The collector's own actions. */
    method Collects(op: Op)
      requires Inv(Snap()) && Enabled(Snap(), op) && (op.Step? || op.Collect?)
      modifies this
      ensures Inv(Snap()) && Acts(old(Snap()), op, Snap())
    {
      hide Inv, Limits, Within, Less, SameGraph, NextLimits, SweptTo, Kids, Kept;
      match op {
        case Step =>
          EveryLimit(Snap());
          SingleStep(objs.Keys);
        case Collect => FullGc();
      }
    }

    /** An object is made, or found. */
    method Makes(op: Op)
      requires Inv(Snap()) && Enabled(Snap(), op) && (op.New? || op.NewUserdata? || op.Capture? || op.Intern?)
      modifies this
      ensures Inv(Snap()) && Acts(old(Snap()), op, Snap())
    {
      hide Inv, GoodKid, SameObjs, Kids;
      ghost var s := Snap();
      match op {
        case New(at, kind, slots) => NewObject(at, kind, slots);
        case NewUserdata(at, slots) => NewUdata(at, slots);
        case Capture(th, level, at) =>
          var uv := FindUpval(th, level, at);
          assert Yields(s, Snap(), uv, at, OpenUpval(th, level));
        case Intern(text, at) =>
          var ts := InternString(text, at);
          FoundYields(s, Snap(), ts, at, Str(text));
      }
    }

    /** Objects that are there change. */
    method Stores(op: Op)
      requires Inv(Snap()) && Enabled(Snap(), op)
      requires op.Store? || op.StoreIn? || op.Write? || op.Cut? || op.Assign? || op.Close?
      modifies this
      ensures Inv(Snap()) && Acts(old(Snap()), op, Snap())
    {
      hide Inv, GoodKid, SweptTo, SameObjs, Kids, ClosedFrom, StoredInto, Placed;
      match op {
        case Store(t, i, v) => StoreTable(t, i, v);
        case StoreIn(o, i, v) => StoreObject(o, i, v);
        case Write(th, i, v) => WriteStack(th, i, v);
        case Cut(th, n) => CutStack(th, n);
        case Assign(uv, v) => SetUpval(uv, v);
        case Close(th, level) =>
          InvThread(Snap(), th);
          CloseUpvals(th, level);
      }
    }

    /** One action of the program or of the collector. */
    method Perform(op: Op)
      requires Inv(Snap()) && Enabled(Snap(), op)
      modifies this
      ensures Inv(Snap()) && Acts(old(Snap()), op, Snap())
    {
      hide Inv;
      if op.Step? || op.Collect? {
        Collects(op);
      } else if op.New? || op.NewUserdata? || op.Capture? || op.Intern? {
        Makes(op);
      } else if op.Fix? {
        FixString(op.ts);
      } else if op.Switch? {
        Resume(op.th);
      } else if op.Metatables? {
        SetBasicMetatables(op.tables);
      } else {
        Stores(op);
      }
    }

    /** Any interleaving of program and collector: whatever the program can reach is in the heap and is not dead. */
    method Run(ops: seq<Op>)
      requires Inv(Snap())
      modifies this
      ensures Inv(Snap())
      ensures forall x :: Reachable(Snap(), x) ==> Alive(Snap(), x)
    {
      hide Inv, Enabled, Reachable, Alive;
      for n := 0 to |ops|
        invariant Inv(Snap())
      {
        if Enabled(Snap(), ops[n]) {
          Perform(ops[n]);
        }
      }
      EverythingAlive(Snap());
    }

    /** The state a program starts in: the main thread with its globals, the registry, an empty string table. */
    constructor (main: Ref, globals: Ref, reg: Ref)
      requires !Plain(main) && !Plain(globals) && !Plain(reg) && main != globals && main != reg && globals != reg
      ensures Inv(Snap()) && running == main && registry == reg
    {
      objs := StartObjs(main, globals, reg);
      white, phase := White0, Pause;
      gray, grayagain := [], [];
      rootgc, sweepgc := [reg, globals, main], 0;
      strt := seq(MINSTRTABSIZE, _ => []);
      sweepstrgc, nuse := 0, 0;
      open, uvhead := map[main := []], [];
      mainthread, running, registry, mt := main, main, reg, [];
      new;
      StartInv(Snap(), main, globals, reg);
    }
}
}
