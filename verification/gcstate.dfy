/** The collector's state and what it keeps (lgc.cc, lgc.h, with the lists of lstring.cc and lfunc.cc it sweeps). */
module GcState {
  import opened Numbers


  // What a slot holds: a positive number is the address of a collectable object, and every other value (nil, the
  // booleans, each number and light userdata) has a number of its own that is not positive.
  type Ref = int

  predicate Plain(v: Ref) { v <= 0 }

  datatype Color = White0 | White1 | Gray | Black

  datatype Phase = Pause | Propagate | SweepString | Sweep | Finalize

  /** A string carries its bytes; an open upvalue names the stack slot it shares. */
  datatype Kind =
    | Str(text: seq<bv8>)
    | Udata
    | OpenUpval(owner: Ref, level: nat)
    | ClosedUpval
    | Func
    | Table
    | Thread
    | Proto

  /** `slots` holds every value the object has; for a thread it is the stack. */
  datatype Obj = Obj(kind: Kind, color: Color, fixed: bool, slots: seq<Ref>)

  datatype State = State(
    objs: map<Ref, Obj>,
    white: Color,
    phase: Phase,
    gray: seq<Ref>,
    grayagain: seq<Ref>,
    rootgc: seq<Ref>,
    sweepgc: nat,
    strt: seq<seq<Ref>>,
    sweepstrgc: nat,
    nuse: int,
    open: map<Ref, seq<Ref>>,
    uvhead: seq<Ref>,
    mainthread: Ref,
    running: Ref,
    registry: Ref,
    mt: seq<Ref>)

  function Other(white: Color): Color { if white == White0 then White1 else White0 }

  predicate IsWhite(c: Color) { c == White0 || c == White1 }

  predicate IsUpval(k: Kind) { k.OpenUpval? || k.ClosedUpval? }

  /** Objects that wait in a gray list before their references are marked. */
  predicate Composite(k: Kind) { k.Func? || k.Table? || k.Thread? || k.Proto? }

  /** Objects on the collector's main list. */
  predicate OnRoot(k: Kind) { !k.Str? && !k.OpenUpval? }

  predicate Marked(s: State, x: Ref) { x in s.objs && !IsWhite(s.objs[x].color) }

  /** Left over from the cycle before: nothing may refer to it, and the sweep will free it. */
  predicate Dead(s: State, x: Ref) { x in s.objs && s.objs[x].color == Other(s.white) }

  predicate Alive(s: State, x: Ref) { x in s.objs && s.objs[x].color != Other(s.white) }

  function Kids(s: State, x: Ref): seq<Ref>
    requires x in s.objs
  {
    match s.objs[x].kind
    case Str(_) => []
    case OpenUpval(th, level) =>
      if th in s.objs && level < |s.objs[th].slots| then [s.objs[th].slots[level]] else []
    case _ => s.objs[x].slots
  }

  // ---- structure

  /** Mixes in the bytes from the end of the string backwards, skipping some when it is long. */
  function HashBytes(text: seq<bv8>, l1: nat, step: nat, h: bv32): bv32
    requires l1 <= |text| && step > 0
  {
    if l1 < step then h
    else HashBytes(text, l1 - step, step, h ^ ((h << 5) + (h >> 2) + (text[l1 - 1] as bv32)))
  }

  function Hash(text: seq<bv8>): nat {
    HashBytes(text, |text|, |text| / 32 + 1, (|text| % 0x1_0000_0000) as bv32) as nat
  }

  function Bucket(text: seq<bv8>, size: nat): (b: nat)
    requires size > 0
    ensures b < size
  {
    Hash(text) % size
  }

  /** The strings chained in all buckets. */
  function Chained(strt: seq<seq<Ref>>): nat {
    if strt == [] then 0 else Chained(strt[..|strt| - 1]) + |strt[|strt| - 1]|
  }

  ghost predicate RootList(s: State) {
    && Distinct(s.rootgc)
    && (forall x :: x in s.rootgc ==> x in s.objs && OnRoot(s.objs[x].kind))
    && (forall x :: x in s.objs && OnRoot(s.objs[x].kind) ==> x in s.rootgc)
  }

  ghost predicate InBucket(s: State, x: Ref, b: int) {
    x in s.objs && s.objs[x].kind.Str? && |s.strt| > 0 && Bucket(s.objs[x].kind.text, |s.strt|) == b
  }

  ghost predicate StringTable(s: State) {
    && |s.strt| > 0 && PowerOfTwo(|s.strt|) && s.nuse == Chained(s.strt)
    && (forall b :: 0 <= b < |s.strt| ==> Distinct(s.strt[b]))
    && (forall b, x :: 0 <= b < |s.strt| && x in s.strt[b] ==> InBucket(s, x, b))
    && (forall x :: x in s.objs && s.objs[x].kind.Str? ==> x in s.strt[Bucket(s.objs[x].kind.text, |s.strt|)])
    && (forall x, y :: x in s.objs && y in s.objs && s.objs[x].kind.Str? && s.objs[x].kind == s.objs[y].kind ==> x == y)
  }

  ghost predicate OwnedBy(s: State, x: Ref, th: Ref) {
    && x in s.objs && s.objs[x].kind.OpenUpval? && s.objs[x].kind.owner == th
    && th in s.objs && s.objs[x].kind.level < |s.objs[th].slots|
  }

  /** The stack level of `x` is above that of `y`, if both are open upvalues. */
  predicate Higher(s: State, x: Ref, y: Ref) {
    x in s.objs && y in s.objs && s.objs[x].kind.OpenUpval? && s.objs[y].kind.OpenUpval? ==>
      s.objs[x].kind.level > s.objs[y].kind.level
  }

  /** The open upvalues of a thread, one per stack level, highest first. */
  ghost predicate Descending(s: State, list: seq<Ref>) {
    forall i, j :: 0 <= i < j < |list| ==> Higher(s, list[i], list[j])
  }

  ghost predicate OpenLists(s: State) {
    && (forall th :: th in s.open <==> th in s.objs && s.objs[th].kind.Thread?)
    && (forall th, x :: th in s.open && x in s.open[th] ==> OwnedBy(s, x, th))
    && (forall x :: x in s.objs && s.objs[x].kind.OpenUpval? ==>
          s.objs[x].kind.owner in s.open && x in s.open[s.objs[x].kind.owner])
    && (forall th :: th in s.open ==> Descending(s, s.open[th]))
    && Distinct(s.uvhead)
    && (forall x :: x in s.uvhead <==> x in s.objs && s.objs[x].kind.OpenUpval?)
  }

  /** Strings, threads and open upvalues are never black, and only strings are fixed. */
  predicate Legal(o: Obj) {
    && (o.color == Black ==> !o.kind.Str? && !o.kind.Thread? && !o.kind.OpenUpval?)
    && (o.fixed ==> o.kind.Str?)
  }

  ghost predicate Structure(s: State) {
    && (forall x :: x in s.objs ==> !Plain(x))
    && IsWhite(s.white)
    && RootList(s) && StringTable(s) && OpenLists(s)
    && (forall x :: x in s.objs ==> Legal(s.objs[x]))
    && s.sweepgc <= |s.rootgc|
  }

  // ---- liveness

  predicate Fits(parent: Kind, kid: Kind) {
    && (parent.Udata? ==> kid.Table?)
    && (IsUpval(parent) || parent.Thread? ==> !IsUpval(kid) && !kid.Proto?)
  }

  predicate GoodKid(s: State, parent: Kind, k: Ref) {
    Plain(k) || (Alive(s, k) && Fits(parent, s.objs[k].kind))
  }

  predicate GoodKids(s: State, x: Ref)
    requires x in s.objs
  {
    forall k :: k in Kids(s, x) ==> GoodKid(s, s.objs[x].kind, k)
  }

  predicate IsRoot(s: State, x: Ref) {
    x == s.mainthread || x == s.running || x == s.registry || x in s.mt
  }

  /** Nothing alive refers to anything dead or freed, and the roots are alive. */
  ghost predicate Lively(s: State) {
    && (forall x :: Alive(s, x) ==> GoodKids(s, x))
    && (forall x :: x in s.mt ==> Alive(s, x) && s.objs[x].kind.Table?)
    && Alive(s, s.mainthread) && Alive(s, s.running) && Alive(s, s.registry)
    && s.objs[s.mainthread].kind.Thread? && s.objs[s.running].kind.Thread? && s.objs[s.registry].kind.Table?
  }

  // ---- the phases

  /** Everything has the current white. */
  ghost predicate Clean(s: State) {
    forall x :: x in s.objs ==> s.objs[x].color == s.white
  }

  ghost predicate NoneDead(s: State) {
    forall x :: x in s.objs ==> !Dead(s, x)
  }

  predicate KidsMarked(s: State, x: Ref)
    requires x in s.objs
  {
    forall k :: k in Kids(s, x) ==> Plain(k) || Marked(s, k)
  }

  /** Waiting in a gray list. */
  predicate Listed(s: State, x: Ref) { x in s.gray || x in s.grayagain }

  predicate GrayEntry(s: State, x: Ref) { x in s.objs && s.objs[x].color == Gray && Composite(s.objs[x].kind) }

  /** The gray lists hold the gray objects with references, each once. */
  ghost predicate GrayLists(s: State) {
    && Distinct(s.gray + s.grayagain)
    && (forall x :: Listed(s, x) ==> GrayEntry(s, x))
    && (forall x :: GrayEntry(s, x) ==> Listed(s, x))
  }

  /** Every marked object waits in the gray list, or is in `pend`, or has only marked references. */
  ghost predicate Tricolor(s: State, pend: set<Ref>) {
    && (forall x :: Marked(s, x) ==> x in s.gray || x in pend || KidsMarked(s, x))
    && (forall x :: Marked(s, x) && (s.objs[x].kind.Udata? || s.objs[x].kind.ClosedUpval?) ==>
          x in pend || s.objs[x].color == Black)
  }

  ghost predicate Marking(s: State, pend: set<Ref>) {
    && Structure(s) && Lively(s) && NoneDead(s) && GrayLists(s) && Tricolor(s, pend)
  }

  ghost function OpenUpvals(s: State): set<Ref> { set x | x in s.uvhead }

  ghost function Again(s: State): set<Ref> { set x | x in s.grayagain }

  /** The sweep has not reached the object yet. */
  ghost predicate Ahead(s: State, x: Ref)
    requires x in s.objs
  {
    match s.objs[x].kind
    case Str(text) => s.phase == SweepString && |s.strt| > 0 && s.sweepstrgc <= Bucket(text, |s.strt|)
    case OpenUpval(th, _) => AheadOnRoot(s, th)
    case _ => AheadOnRoot(s, x)
  }

  ghost predicate AheadOnRoot(s: State, x: Ref) {
    s.phase == SweepString || (s.sweepgc <= |s.rootgc| && x in s.rootgc[s.sweepgc..])
  }

  /** What the sweep has passed is white again. */
  ghost predicate Swept(s: State) {
    forall x :: x in s.objs ==> s.objs[x].color == s.white || Ahead(s, x)
  }

  /** The invariant of every step of collector and program. */
  ghost predicate Inv(s: State) {
    && Structure(s) && Lively(s)
    && match s.phase
       case Pause => Clean(s)
       case Finalize => Clean(s)
       case Propagate =>
         && NoneDead(s) && GrayLists(s) && Tricolor(s, Again(s) + OpenUpvals(s))
         && Marked(s, s.mainthread) && Marked(s, s.registry)
       case SweepString => Swept(s) && s.sweepgc == 0 && s.sweepstrgc < |s.strt|
       case Sweep => Swept(s)
  }

  // ---- reachability

  /** A chain of references from a root. Its last element need not be an object of the heap: that it always is,
      is the safety of the collector. */
  ghost predicate IsPath(s: State, p: seq<Ref>) {
    && |p| > 0 && IsRoot(s, p[0])
    && forall i :: 0 <= i < |p| - 1 ==> IsEdge(s, p[i], p[i + 1])
  }

  predicate IsEdge(s: State, x: Ref, k: Ref) { !Plain(k) && x in s.objs && k in Kids(s, x) }

  ghost predicate Reachable(s: State, x: Ref) {
    exists p :: IsPath(s, p) && p[|p| - 1] == x
  }

  lemma {:induction false} PathAlive(s: State, p: seq<Ref>)
    requires Lively(s) && IsPath(s, p)
    ensures Alive(s, p[|p| - 1])
    decreases |p|
  {
    if |p| > 1 {
      var q := p[..|p| - 1];
      PathAlive(s, q);
      assert IsEdge(s, p[|p| - 2], p[|p| - 1]);
      assert GoodKids(s, q[|q| - 1]);
    }
  }

  /** No object the program can reach has been freed or is about to be. */
  lemma ReachableAlive(s: State, x: Ref)
    requires Inv(s) && Reachable(s, x)
    ensures Alive(s, x)
  {
    var p :| IsPath(s, p) && p[|p| - 1] == x;
    PathAlive(s, p);
  }

  lemma ReachableKid(s: State, x: Ref, k: Ref)
    requires Reachable(s, x) && IsEdge(s, x, k)
    ensures Reachable(s, k)
  {
    var p :| IsPath(s, p) && p[|p| - 1] == x;
    assert IsPath(s, p + [k]);
  }

  lemma ReachableRoot(s: State, x: Ref)
    requires IsRoot(s, x)
    ensures Reachable(s, x)
  {
    assert IsPath(s, [x]);
  }
}
