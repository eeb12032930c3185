/** Whole cycles: how far a cycle has come, what bounds what it keeps, and what a full collection leaves. */
module GcCycle {
  import opened GcState
  import opened GcMark
  import opened GcSweep
  import opened GcMutate
  import opened Numbers

  const GCSWEEPMAX := 40

  // ---- progress

  function Order(s: State): nat {
    match s.phase
    case Pause => 0
    case Finalize => 1
    case Sweep => 2
    case SweepString => 3
    case Propagate => 4
  }

  ghost function Work(s: State): nat {
    if s.phase == Propagate then |Whites(s)|
    else if s.phase == SweepString && s.sweepstrgc <= |s.strt| then |s.strt| - s.sweepstrgc
    else if s.phase == Sweep && s.sweepgc <= |s.rootgc| then |s.uvhead| + |s.rootgc| - s.sweepgc
    else 0
  }

  function Queue(s: State): nat { if s.phase == Propagate then |s.gray| else 0 }

  /** Every step but the one that starts a cycle brings the collector nearer to the end of it. */
  ghost predicate Less(s': State, s: State) {
    s.phase == Pause ||
    Order(s') < Order(s) ||
    (Order(s') == Order(s) && (Work(s') < Work(s) || (Work(s') == Work(s) && Queue(s') < Queue(s))))
  }

  lemma LessOrder(s: State, s': State)
    requires Less(s', s) && s.phase != Pause
    ensures Order(s') < Order(s)
            || (Order(s') == Order(s) && (Work(s') < Work(s) || (Work(s') == Work(s) && Queue(s') < Queue(s))))
  {
  }

  // ---- the bound on what a cycle marks

  ghost predicate ClosedSet(s: State, lim: set<Ref>) {
    && (forall x :: x in lim ==> x in s.objs)
    && (forall x, k :: x in lim && IsEdge(s, x, k) ==> k in lim)
  }

  ghost predicate RootsIn(s: State, lim: set<Ref>) {
    forall x :: IsRoot(s, x) ==> x in lim
  }

  /** `lim` bounds the marking, if there is one. */
  ghost predicate Limits(s: State, lim: set<Ref>) {
    match s.phase
    case Pause => ClosedSet(s, lim) && RootsIn(s, lim)
    case Propagate => Within(s, lim) && RootsIn(s, lim)
    case SweepString => true
    case Sweep => true
    case Finalize => true
  }

  ghost predicate AliveIn(s: State, lim: set<Ref>) {
    forall x :: Alive(s, x) ==> x in lim || s.objs[x].fixed
  }

  /** A step keeps the bound; at the end of marking exactly bounded things are alive; sweeping revives fixed strings
      only. */
  ghost predicate NextLimits(s: State, s': State, lim: set<Ref>) {
    match s.phase
    case Pause => s'.phase == Propagate && Within(s', lim)
    case Propagate =>
      (s'.phase == Propagate && Within(s', lim)) || (s'.phase == SweepString && forall x :: Alive(s', x) ==> x in lim)
    case SweepString => s'.phase != Propagate && s'.phase != Pause && RevivedOnly(s, s')
    case Sweep => s'.phase != Propagate && s'.phase != Pause && RevivedOnly(s, s')
    case Finalize => s'.phase == Pause && s'.objs == s.objs && s'.white == s.white
  }

  ghost predicate RevivedOnly(s: State, s': State) {
    (forall x :: Alive(s', x) ==> Alive(s, x) || s'.objs[x].fixed) &&
    (forall x :: x in s'.objs ==> x in s.objs && s'.objs[x].fixed == s.objs[x].fixed)
  }

  lemma PauseLimits(s: State, lim: set<Ref>)
    requires Inv(s) && s.phase == Pause && Limits(s, lim)
    ensures Structure(s) && Lively(s) && Clean(s)
    ensures (forall x :: x in lim ==> x in s.objs) && (forall x, k :: x in lim && IsEdge(s, x, k) ==> k in lim)
    ensures forall x :: IsRoot(s, x) ==> x in lim
  {
    hide Structure, Lively, Clean;
  }

  lemma PropagateLimits(s: State, lim: set<Ref>)
    requires Inv(s) && s.phase == Propagate && Limits(s, lim)
    ensures Within(s, lim) && forall x :: IsRoot(s, x) ==> x in lim
  {
    hide Structure, Lively, Inv;
  }

  // ---- what each step keeps

  /** Nothing the program can reach was lost or changed, nothing else became reachable, no fixed string was lost. */
  ghost predicate SameGraph(s: State, s': State) {
    && (forall x :: Reachable(s, x) <==> Reachable(s', x))
    && (forall x :: Reachable(s, x) ==> x in s.objs && x in s'.objs && Kids(s', x) == Kids(s, x))
    && (forall x :: x in s.objs && s.objs[x].fixed ==> x in s'.objs && s'.objs[x].fixed)
  }

  lemma GraphSelf(s: State)
    requires Inv(s)
    ensures SameGraph(s, s)
  {
    hide Inv, Reachable, Kids;
    forall x | Reachable(s, x) ensures x in s.objs {
      ReachableAlive(s, x);
    }
  }

  lemma GraphThere(s: State, s': State)
    requires SameGraph(s, s')
    ensures forall x :: Reachable(s, x) || (x in s.objs && s.objs[x].fixed) ==> x in s'.objs
  {
    hide Reachable, Kids;
  }

  lemma GraphTrans(a: State, b: State, c: State)
    requires SameGraph(a, b) && SameGraph(b, c)
    ensures SameGraph(a, c)
  {
    hide Reachable, Kids;
  }

  lemma SweptNext(s: State, s': State)
    requires SweptTo(s, s')
    ensures Kept(s, s') && RevivedOnly(s, s')
  {
    hide Kids;
  }

  lemma KeptGraph(s: State, s': State)
    requires Inv(s) && Kept(s, s')
    ensures SameGraph(s, s')
  {
    hide Reachable, Kids, Inv;
    InvRoots(s);
    KeptReachable(s, s');
    forall x | Reachable(s, x) ensures Alive(s, x) {
      ReachableAlive(s, x);
    }
  }

  lemma HeapKept(s: State, s': State)
    requires SameHeap(s, s'.(phase := s.phase))
    ensures Kept(s, s')
  {
    hide Kids;
    var t := s'.(phase := s.phase);
    forall x | x in s.objs ensures x in s'.objs && Kids(s', x) == Kids(s, x) && s'.objs[x].fixed == s.objs[x].fixed {
      assert SameObj(s, t, x);
      SameKids(s, t, x);
      assert Kids(s', x) == Kids(t, x) by { SameEdges(t, s'); }
    }
  }

  lemma MarkedRoot(s: State, s': State)
    requires SameHeap(s, s'.(phase := s.phase)) && (s.phase == Finalize || s.phase == Pause) && s'.phase == Propagate
    ensures Kept(s, s') && (s.phase == Pause ==> Less(s', s))
  {
    HeapKept(s, s');
  }

  lemma {:induction false} SubsetSmaller<T>(a: set<T>, b: set<T>)
    requires a <= b
    ensures |a| <= |b| && (a < b ==> |a| < |b|)
  {
    var rest := b - a;
    assert b == a + rest;
  }

  lemma PropagateStep(s: State, s': State)
    requires Inv(s) && s.phase == Propagate && s'.phase == Propagate && Advanced(s, s')
    requires Whites(s') < Whites(s) || (Whites(s') == Whites(s) && |s'.gray| < |s.gray|)
    requires Marking(s', Again(s) + OpenUpvals(s))
    ensures Inv(s') && Kept(s, s') && Less(s', s)
  {
    hide Marking, Kids, Structure, Lively, NoneDead, GrayLists, Tricolor;
    InvMarking(s);
    assert s' == s'.(phase := s.phase);
    HeapKept(s, s');
    SubsetSmaller(Whites(s'), Whites(s));
    assert OpenUpvals(s') == OpenUpvals(s);
    MarkingInv(s', Again(s) + OpenUpvals(s));
  }

  lemma ObjsKept(s: State, s': State)
    requires SameObjs(s.objs, s'.objs)
    requires s'.mainthread == s.mainthread && s'.running == s.running && s'.registry == s.registry && s'.mt == s.mt
    ensures Kept(s, s')
  {
    forall x | x in s.objs ensures Kids(s', x) == Kids(s, x) {
      match s.objs[x].kind
      case OpenUpval(th, level) => assert th in s.objs <==> th in s'.objs;
      case Str(_) =>
      case Udata =>
      case ClosedUpval =>
      case Func =>
      case Table =>
      case Thread =>
      case Proto =>
    }
  }

  lemma PlaceInv(s: State)
    requires Inv(s)
    ensures s.phase == SweepString ==> s.sweepstrgc < |s.strt|
    ensures s.sweepgc <= |s.rootgc|
  {
    hide Lively, RootList, StringTable, OpenLists, Swept, Clean;
  }

  lemma PauseInv(s: State)
    requires Inv(s) && s.phase == Finalize
    ensures Inv(s.(phase := Pause)) && Kept(s, s.(phase := Pause))
  {
    hide StringTable, RootList, OpenLists, Kids, Lively;
    var s' := s.(phase := Pause);
    SameLively(s, s');
    assert forall x :: x in s.objs ==> Kids(s', x) == Kids(s, x) by { SameEdges(s, s'); }
  }

  lemma FinalizeInv(s: State)
    requires Sweeping(s) && s.phase == Sweep && s.sweepgc == |s.rootgc|
    ensures Inv(s.(phase := Finalize)) && SweptTo(s, s.(phase := Finalize))
  {
    hide StringTable, RootList, OpenLists, Kids, Lively, Swept;
    var s' := s.(phase := Finalize);
    SweepDone(s);
    SameLively(s, s');
    assert forall x :: x in s.objs ==> Kids(s', x) == Kids(s, x) by { SameEdges(s, s'); }
  }

  lemma ResizedSwept(s: State, s': State)
    requires s' == s.(strt := s'.strt)
    ensures SweptTo(s, s')
  {
    hide Kids;
    assert forall x :: x in s.objs ==> Kids(s', x) == Kids(s, x) by { SameEdges(s, s'); }
  }

  /** Outside a sweep nothing is dead, so the sweep that full collection starts with frees nothing. */
  lemma ResetInv(s: State, s': State)
    requires Inv(s) && (s.phase == Pause || s.phase == Propagate)
    requires s' == s.(sweepstrgc := 0, sweepgc := 0, gray := [], grayagain := [], phase := SweepString)
    ensures Inv(s') && SameGraph(s, s')
  {
    hide StringTable, RootList, OpenLists, Kids, Lively, GrayLists, Tricolor, Reachable, SameGraph;
    SameLively(s, s');
    assert forall x :: x in s.objs ==> Kids(s', x) == Kids(s, x) by { SameEdges(s, s'); }
    assert |s.strt| > 0 by { InvStrings(s); NonemptyTable(s); }
    forall x | x in s'.objs ensures Ahead(s', x) {
      match s.objs[x].kind
      case OpenUpval(th, _) => assert AheadOnRoot(s', th);
      case Str(_) =>
      case Udata => assert AheadOnRoot(s', x);
      case ClosedUpval => assert AheadOnRoot(s', x);
      case Func => assert AheadOnRoot(s', x);
      case Table => assert AheadOnRoot(s', x);
      case Thread => assert AheadOnRoot(s', x);
      case Proto => assert AheadOnRoot(s', x);
    }
    KeptGraph(s, s');
  }

  lemma NoLimits(s: State)
    requires s.phase == SweepString || s.phase == Sweep || s.phase == Finalize
    ensures Limits(s, {})
  {
  }

  lemma NextSweep(s: State, s': State)
    requires NextLimits(s, s', {}) && (s.phase == SweepString || s.phase == Sweep)
    ensures s'.phase == SweepString || s'.phase == Sweep || s'.phase == Finalize
  {
  }

  ghost function ReachSet(s: State): set<Ref> { set x | x in s.objs && Reachable(s, x) }

  lemma ReachLimits(s: State)
    requires Inv(s) && s.phase == Finalize
    ensures Structure(s) && Lively(s) && Clean(s)
    ensures forall x :: x in ReachSet(s) ==> x in s.objs
    ensures forall x, k :: x in ReachSet(s) && IsEdge(s, x, k) ==> k in ReachSet(s)
    ensures forall x :: IsRoot(s, x) ==> x in ReachSet(s)
  {
    hide Structure, Lively, Clean, Reachable, Kids;
    forall x, k | x in ReachSet(s) && IsEdge(s, x, k) ensures k in ReachSet(s) {
      ReachableKid(s, x, k);
      ReachableAlive(s, k);
    }
    forall x | IsRoot(s, x) ensures x in ReachSet(s) {
      ReachableRoot(s, x);
      ReachableAlive(s, x);
    }
  }

  /** What the last cycle of a full collection maintains: the bound while marking, and afterwards that only
      bounded or fixed things are alive. */
  ghost predicate Leaves(s: State, lim: set<Ref>) {
    RootsIn(s, lim) && if s.phase == Propagate then Within(s, lim) else AliveIn(s, lim)
  }

  lemma StartLeaves(s: State, lim: set<Ref>)
    requires s.phase == Propagate && Within(s, lim) && forall x :: IsRoot(s, x) ==> x in lim
    ensures Leaves(s, lim)
  {
    hide Within;
  }

  lemma LeavesLimits(s: State, lim: set<Ref>)
    requires Leaves(s, lim) && s.phase != Pause
    ensures Limits(s, lim)
  {
    hide Within;
  }

  lemma NextLeaves(s: State, s': State, lim: set<Ref>)
    requires Leaves(s, lim) && s.phase != Pause && NextLimits(s, s', lim) && Kept(s, s')
    ensures Leaves(s', lim)
  {
    hide Within, Kids;
    assert RootsIn(s', lim) by {
      forall x | IsRoot(s', x) ensures x in lim {
        assert IsRoot(s, x);
      }
    }
  }

  lemma OnlyReachable(s: State, t: State, s': State)
    requires Inv(s') && s'.phase == Pause && Leaves(s', ReachSet(t))
    requires SameGraph(s, t)
    ensures forall x :: x in s'.objs ==> Reachable(s, x) || s'.objs[x].fixed
  {
    hide Structure, Lively, Reachable, Kids;
    assert IsWhite(s'.white) by { InvWhite(s'); }
    forall x | x in s'.objs ensures Reachable(s, x) || s'.objs[x].fixed {
      assert Alive(s', x);
    }
  }

  // ---- runs

  /** What the program and the collector can do. A new object is given its address. */
  datatype Op =
    | Step
    | Collect
    | New(at: Ref, kind: Kind, slots: seq<Ref>)
    | NewUserdata(at: Ref, slots: seq<Ref>)
    | Store(t: Ref, i: nat, v: Ref)
    | StoreIn(o: Ref, i: nat, v: Ref)
    | Write(th: Ref, i: nat, v: Ref)
    | Cut(th: Ref, n: nat)
    | Assign(uv: Ref, v: Ref)
    | Capture(th: Ref, level: nat, at: Ref)
    | Close(th: Ref, level: nat)
    | Intern(text: seq<bv8>, at: Ref)
    | Fix(ts: Ref)
    | Switch(th: Ref)
    | Metatables(tables: seq<Ref>)

  predicate IsThread(s: State, th: Ref) { Alive(s, th) && s.objs[th].kind.Thread? }

  /** The program handles living objects only; new objects get free addresses; a captured slot is closed before it
      goes. */
  predicate Enabled(s: State, op: Op) {
    match op
    case Step => true
    case Collect => true
    case New(at, kind, slots) =>
      at !in s.objs && !Plain(at) && OnRoot(kind) && !kind.Udata? && forall k :: k in slots ==> GoodKid(s, kind, k)
    case NewUserdata(at, slots) => at !in s.objs && !Plain(at) && forall k :: k in slots ==> GoodKid(s, Udata, k)
    case Store(t, i, v) => Alive(s, t) && s.objs[t].kind.Table? && i <= |s.objs[t].slots| && GoodKid(s, Table, v)
    case StoreIn(o, i, v) =>
      Alive(s, o) && (s.objs[o].kind.Func? || s.objs[o].kind.Proto? || s.objs[o].kind.Udata?) &&
      i <= |s.objs[o].slots| && GoodKid(s, s.objs[o].kind, v)
    case Write(th, i, v) => IsThread(s, th) && i <= |s.objs[th].slots| && GoodKid(s, Thread, v)
    case Cut(th, n) =>
      IsThread(s, th) && n <= |s.objs[th].slots| &&
      forall u :: u in s.objs && s.objs[u].kind.OpenUpval? && s.objs[u].kind.owner == th ==> s.objs[u].kind.level < n
    case Assign(uv, v) => Alive(s, uv) && IsUpval(s.objs[uv].kind) && GoodKid(s, ClosedUpval, v)
    case Capture(th, level, at) => IsThread(s, th) && level < |s.objs[th].slots| && at !in s.objs && !Plain(at)
    case Close(th, level) => IsThread(s, th)
    case Intern(text, at) => at !in s.objs && !Plain(at)
    case Fix(ts) => Alive(s, ts) && s.objs[ts].kind.Str?
    case Switch(th) => IsThread(s, th)
    case Metatables(tables) => forall x :: x in tables ==> Alive(s, x) && s.objs[x].kind.Table?
  }

  /** What an action does to the state, but for colours and the collector's own lists. */
  ghost predicate Acts(s: State, op: Op, s': State)
    requires Enabled(s, op)
  {
    match op
    case Step => Kept(s, s')
    case Collect =>
      && SameGraph(s, s')
      && (forall x :: x in s'.objs ==> Reachable(s, x) || s'.objs[x].fixed)
      && (forall x :: Reachable(s, x) || (x in s.objs && s.objs[x].fixed) ==> x in s'.objs)
    case New(at, kind, slots) => SameRoots(s, s') && s'.objs == s.objs[at := Obj(kind, s.white, false, slots)]
    case NewUserdata(at, slots) => SameRoots(s, s') && s'.objs == s.objs[at := Obj(Udata, s.white, false, slots)]
    case Store(t, i, v) => SameRoots(s, s') && StoredInto(s.objs, t, i, v, s'.objs)
    case StoreIn(o, i, v) => SameRoots(s, s') && StoredInto(s.objs, o, i, v, s'.objs)
    case Write(th, i, v) =>
      && th in s'.objs && Placed(s.objs[th].slots, s'.objs[th].slots, i, v)
      && s' == s.(objs := s.objs[th := s.objs[th].(slots := s'.objs[th].slots)])
    case Cut(th, n) => s' == s.(objs := s.objs[th := s.objs[th].(slots := s.objs[th].slots[..n])])
    case Assign(uv, v) => SameRoots(s, s') && SameObjs(Assigned(s, uv, v), s'.objs)
    case Capture(th, level, at) =>
      SameRoots(s, s') && exists uv :: Yields(s, s', uv, at, OpenUpval(th, level))
    case Close(th, level) => SweptTo(s, s') && ClosedFrom(s, s', th, level) && NoneFrom(s', th, level)
    case Intern(text, at) => SameRoots(s, s') && exists ts :: Yields(s, s', ts, at, Str(text))
    case Fix(ts) => s' == s.(objs := s.objs[ts := s.objs[ts].(fixed := true)])
    case Switch(th) => s' == s.(running := th)
    case Metatables(tables) => s' == s.(mt := tables)
  }

  /** An object of this kind is there and alive, found or new at `at`; no other comes or changes. */
  ghost predicate Yields(s: State, s': State, x: Ref, at: Ref, kind: Kind) {
    && Alive(s', x) && s'.objs[x].kind == kind && (x == at || x in s.objs)
    && SameObjs(if x == at then s.objs[at := Obj(kind, s.white, false, [])] else s.objs, s'.objs)
  }

  lemma FoundYields(s: State, s': State, x: Ref, at: Ref, kind: Kind)
    requires at !in s.objs && Alive(s', x) && s'.objs[x].kind == kind
    requires SameObjs(if x in s.objs then s.objs else s.objs[at := Obj(kind, s.white, false, [])], s'.objs)
    ensures Yields(s, s', x, at, kind)
  {
  }

  /** No open upvalue of the thread is left at or above the level. */
  ghost predicate NoneFrom(s: State, th: Ref, level: nat) {
    th in s.open
    && forall u :: u in s.open[th] && u in s.objs && s.objs[u].kind.OpenUpval? ==> s.objs[u].kind.level < level
  }

  lemma EveryLimit(s: State)
    requires Inv(s)
    ensures Limits(s, s.objs.Keys)
  {
    hide Structure, Swept, GrayLists, Tricolor;
    InvRoots(s);
    InvNoneDead(s);
    if s.phase == Pause || s.phase == Propagate {
      AllWithin(s);
    }
  }

  lemma InvNoneDead(s: State)
    requires Inv(s)
    ensures s.phase == Pause || s.phase == Propagate ==> NoneDead(s)
  {
    hide RootList, StringTable, OpenLists, Lively, Swept, GrayLists, Tricolor;
  }

  lemma EverythingAlive(s: State)
    requires Inv(s)
    ensures forall x :: Reachable(s, x) ==> Alive(s, x)
  {
    hide Inv, Reachable, Alive;
    forall x | Reachable(s, x) ensures Alive(s, x) {
      ReachableAlive(s, x);
    }
  }

  lemma StartStrings(s: State)
    requires s.nuse == 0 && |s.strt| == MINSTRTABSIZE && forall b :: 0 <= b < |s.strt| ==> s.strt[b] == []
    requires forall x :: x in s.objs ==> !s.objs[x].kind.Str?
    ensures StringTable(s)
  {
    hide Bucket;
    ChainedEmpty(s.strt);
    assert PowerOfTwo(32) by {
      assert PowerOfTwo(4);
      assert PowerOfTwo(16);
    }
  }

  function StartObjs(main: Ref, globals: Ref, reg: Ref): map<Ref, Obj> {
    map[main := Obj(Thread, White0, false, [globals]), globals := Obj(Table, White0, false, []),
        reg := Obj(Table, White0, false, [])]
  }

  lemma StartLively(s: State, main: Ref, globals: Ref, reg: Ref)
    requires !Plain(main) && !Plain(globals) && !Plain(reg) && main != globals && main != reg && globals != reg
    requires s.objs == StartObjs(main, globals, reg) && s.white == White0
    requires s.mainthread == main && s.running == main && s.registry == reg && s.mt == []
    ensures Lively(s)
  {
    forall x | Alive(s, x) ensures GoodKids(s, x) {
    }
  }

  lemma StartRoot(s: State, main: Ref, globals: Ref, reg: Ref)
    requires main != globals && main != reg && globals != reg
    requires s.objs == StartObjs(main, globals, reg) && s.rootgc == [reg, globals, main]
    ensures RootList(s)
  {
  }

  lemma StartOpen(s: State, main: Ref, globals: Ref, reg: Ref)
    requires main != globals && main != reg && globals != reg
    requires s.objs == StartObjs(main, globals, reg) && s.open == map[main := []] && s.uvhead == []
    ensures OpenLists(s)
  {
  }

  lemma StartInv(s: State, main: Ref, globals: Ref, reg: Ref)
    requires !Plain(main) && !Plain(globals) && !Plain(reg) && main != globals && main != reg && globals != reg
    requires s.objs == StartObjs(main, globals, reg)
    requires s.white == White0 && s.phase == Pause && s.rootgc == [reg, globals, main] && s.sweepgc == 0
    requires |s.strt| == MINSTRTABSIZE && (forall b :: 0 <= b < |s.strt| ==> s.strt[b] == []) && s.nuse == 0
    requires s.open == map[main := []] && s.uvhead == []
    requires s.mainthread == main && s.running == main && s.registry == reg && s.mt == []
    ensures Inv(s)
  {
    hide StringTable, RootList, OpenLists, Lively;
    StartStrings(s);
    StartRoot(s, main, globals, reg);
    StartOpen(s, main, globals, reg);
    StartLively(s, main, globals, reg);
  }
}
