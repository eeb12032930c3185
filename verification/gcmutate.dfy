/** The program's side: allocating, storing, capturing, closing and interning between the steps of the collector. */
module GcMutate {
  import opened GcState
  import opened GcMark
  import opened GcSweep
  import opened Numbers

  function InsertAt<T>(q: seq<T>, p: nat, x: T): seq<T>
    requires p <= |q|
  {
    q[..p] + [x] + q[p..]
  }

  /** Where the sweep stands after something was linked at `p`. */
  function Shifted(sweepgc: nat, p: nat): nat { if sweepgc > p then sweepgc + 1 else sweepgc }

  lemma InsertedElements<T>(q: seq<T>, p: nat, x: T)
    requires p <= |q|
    ensures |InsertAt(q, p, x)| == |q| + 1
    ensures forall y :: y in InsertAt(q, p, x) <==> y == x || y in q
    ensures Distinct(q) && x !in q ==> Distinct(InsertAt(q, p, x))
  {
    var r := InsertAt(q, p, x);
    assert forall i :: 0 <= i < |r| ==> r[i] == if i < p then q[i] else if i == p then x else q[i - 1];
    forall y | y in q ensures y in r {
      var i :| 0 <= i < |q| && q[i] == y;
      assert r[if i < p then i else i + 1] == y;
    }
    assert r[p] == x;
  }

  lemma InsertedRest<T>(q: seq<T>, p: nat, x: T, sweepgc: nat)
    requires p <= |q| && sweepgc <= |q|
    ensures |InsertAt(q, p, x)| == |q| + 1
    ensures Shifted(sweepgc, p) <= |q| + 1
    ensures forall y :: y in q[sweepgc..] ==> y in InsertAt(q, p, x)[Shifted(sweepgc, p)..]
  {
    var r := InsertAt(q, p, x);
    if sweepgc > p {
      assert r[sweepgc + 1..] == q[sweepgc..];
    } else {
      assert r[sweepgc..] == q[sweepgc..p] + [x] + q[p..];
      assert q[sweepgc..] == q[sweepgc..p] + q[p..];
    }
  }

  // ---- a new object

  lemma NewOwnsNone(s: State, x: Ref)
    requires OpenLists(s) && x !in s.objs
    ensures OwnsNone(s, x)
  {
  }

  lemma CreatedKids(s: State, s': State, x: Ref, y: Ref)
    requires x !in s.objs && OwnsNone(s, x) && x in s'.objs && s'.objs == s.objs[x := s'.objs[x]] && y in s.objs
    ensures Kids(s', y) == Kids(s, y)
  {
  }

  lemma CreatedLively(s: State, s': State, x: Ref)
    requires Lively(s) && SameRoots(s, s') && OwnsNone(s, x)
    requires x !in s.objs && x in s'.objs && s'.objs == s.objs[x := s'.objs[x]]
    requires forall k :: k in Kids(s', x) ==> GoodKid(s, s'.objs[x].kind, k)
    ensures Lively(s')
  {
    hide Kids;
    forall y | Alive(s', y) ensures GoodKids(s', y) {
      if y != x {
        CreatedKids(s, s', x, y);
        assert Alive(s, y) && GoodKids(s, y);
      }
      forall k | k in Kids(s', y) ensures GoodKid(s', s'.objs[y].kind, k) {
        assert GoodKid(s, s'.objs[y].kind, k);
      }
    }
  }

  /** A new white object disturbs no phase of the collector. */
  lemma CreatedPhase(s: State, s': State, x: Ref)
    requires Inv(s) && Structure(s') && Lively(s') && SameRoots(s, s')
    requires x !in s.objs && x in s'.objs && s'.objs == s.objs[x := s'.objs[x]] && s'.objs[x].color == s.white
    requires s'.phase == s.phase && s'.gray == s.gray && s'.grayagain == s.grayagain && s'.sweepstrgc == s.sweepstrgc
    requires |s'.strt| == |s.strt| && (forall u :: u in s.uvhead ==> u in s'.uvhead)
    requires s.sweepgc == 0 ==> s'.sweepgc == 0
    requires forall y :: s.sweepgc <= |s.rootgc| && s'.sweepgc <= |s'.rootgc| && y in s.rootgc[s.sweepgc..] ==>
               y in s'.rootgc[s'.sweepgc..]
    ensures Inv(s')
  {
    hide Bucket, StringTable, RootList, OpenLists, Lively;
    assert OwnsNone(s, x) by { NewOwnsNone(s, x); }
    match s.phase
    case Pause =>
    case Finalize =>
    case Propagate => CreatedMarking(s, s', x);
    case SweepString => CreatedSwept(s, s', x);
    case Sweep => CreatedSwept(s, s', x);
  }

  lemma CreatedSwept(s: State, s': State, x: Ref)
    requires Swept(s) && x in s'.objs && s'.objs == s.objs[x := s'.objs[x]] && s'.objs[x].color == s.white
    requires s'.phase == s.phase && s'.sweepstrgc == s.sweepstrgc && |s'.strt| == |s.strt| && s'.white == s.white
    requires s'.sweepgc <= |s'.rootgc|
    requires forall y :: s.sweepgc <= |s.rootgc| && y in s.rootgc[s.sweepgc..] ==> y in s'.rootgc[s'.sweepgc..]
    ensures Swept(s')
  {
    hide Bucket;
    forall y | y in s'.objs ensures s'.objs[y].color == s'.white || Ahead(s', y) {
      if y != x {
        assert s.objs[y].color == s.white || Ahead(s, y);
      }
    }
  }

  lemma CreatedMarking(s: State, s': State, x: Ref)
    requires NoneDead(s) && GrayLists(s) && Tricolor(s, Again(s) + OpenUpvals(s)) && IsWhite(s.white)
    requires x !in s.objs && x in s'.objs && s'.objs == s.objs[x := s'.objs[x]] && s'.objs[x].color == s.white
    requires s'.gray == s.gray && s'.grayagain == s.grayagain && s'.white == s.white && OwnsNone(s, x)
    requires forall u :: u in s.uvhead ==> u in s'.uvhead
    ensures NoneDead(s') && GrayLists(s') && Tricolor(s', Again(s') + OpenUpvals(s'))
    ensures forall y :: Marked(s, y) ==> Marked(s', y)
  {
    hide Kids;
    assert forall y :: Marked(s', y) <==> Marked(s, y);
    assert forall y :: GrayEntry(s', y) <==> GrayEntry(s, y);
    assert forall y :: Listed(s', y) <==> Listed(s, y);
    forall y | Marked(s', y) ensures y in s'.gray || y in Again(s') + OpenUpvals(s') || KidsMarked(s', y) {
      CreatedKids(s, s', x, y);
    }
  }

  /** An object is linked into the main list, white. */
  function Linked(s: State, x: Ref, kind: Kind, slots: seq<Ref>, p: nat): State
    requires p <= |s.rootgc|
  {
    s.(objs := s.objs[x := Obj(kind, s.white, false, slots)],
       rootgc := InsertAt(s.rootgc, p, x), sweepgc := Shifted(s.sweepgc, p),
       open := if kind.Thread? then s.open[x := []] else s.open)
  }

  lemma LinkedOpen(s: State, x: Ref, kind: Kind, slots: seq<Ref>, p: nat)
    requires OpenLists(s) && x !in s.objs && OnRoot(kind) && p <= |s.rootgc|
    ensures OpenLists(Linked(s, x, kind, slots, p))
  {
    var s' := Linked(s, x, kind, slots, p);
    forall t, u | t in s'.open && u in s'.open[t] ensures OwnedBy(s', u, t) {
      assert OwnedBy(s, u, t);
    }
    forall t | t in s'.open ensures Descending(s', s'.open[t]) {
      if t != x {
        DescendingSame(s, s', s.open[t]);
      }
    }
  }

  lemma LinkedInv(s: State, x: Ref, kind: Kind, slots: seq<Ref>, p: nat)
    requires Inv(s) && x !in s.objs && !Plain(x) && OnRoot(kind) && p <= |s.rootgc|
    requires forall k :: k in slots ==> GoodKid(s, kind, k)
    ensures Inv(Linked(s, x, kind, slots, p))
  {
    hide Bucket, StringTable, RootList, OpenLists, Kids, InsertAt, Lively, Swept, Clean, NoneDead, GrayLists, Tricolor;
    var s' := Linked(s, x, kind, slots, p);
    InsertedElements(s.rootgc, p, x);
    InsertedRest(s.rootgc, p, x, s.sweepgc);
    LinkedRoot(s, x, kind, slots, p);
    FrameStrings(s, s');
    LinkedOpen(s, x, kind, slots, p);
    NewOwnsNone(s, x);
    LinkedKids(s, x, kind, slots, p);
    CreatedLively(s, s', x);
    CreatedPhase(s, s', x);
  }

  lemma LinkedKids(s: State, x: Ref, kind: Kind, slots: seq<Ref>, p: nat)
    requires p <= |s.rootgc| && OnRoot(kind)
    ensures Kids(Linked(s, x, kind, slots, p), x) == slots
  {
  }

  lemma LinkedRoot(s: State, x: Ref, kind: Kind, slots: seq<Ref>, p: nat)
    requires RootList(s) && x !in s.objs && OnRoot(kind) && p <= |s.rootgc|
    ensures RootList(Linked(s, x, kind, slots, p))
  {
    hide InsertAt;
    InsertedElements(s.rootgc, p, x);
  }

  // ---- strings

  /** A string is chained at the head of its bucket. */
  function Chain(s: State, x: Ref, text: seq<bv8>): State
    requires |s.strt| > 0
  {
    var b := Bucket(text, |s.strt|);
    s.(objs := s.objs[x := Obj(Str(text), s.white, false, [])], strt := s.strt[b := [x] + s.strt[b]],
        nuse := s.nuse + 1)
  }

  /** No string of the heap has these bytes. */
  ghost predicate NoString(s: State, text: seq<bv8>) {
    forall x :: x in s.objs && s.objs[x].kind.Str? ==> s.objs[x].kind.text != text
  }

  /** The search looks at one bucket only. */
  lemma NotInBucket(s: State, text: seq<bv8>)
    requires StringTable(s)
    requires forall x :: x in s.strt[Bucket(text, |s.strt|)] && x in s.objs && s.objs[x].kind.Str? ==>
               s.objs[x].kind.text != text
    ensures NoString(s, text)
  {
    hide Bucket;
    forall x | x in s.objs && s.objs[x].kind.Str? ensures s.objs[x].kind.text != text {
      InItsBucket(s, x);
    }
  }

  lemma ChainStrings(s: State, x: Ref, text: seq<bv8>)
    requires StringTable(s) && x !in s.objs && NoString(s, text)
    ensures StringTable(Chain(s, x, text))
  {
    hide Bucket, PowerOfTwo;
    var s' := Chain(s, x, text);
    var b := Bucket(text, |s.strt|);
    ChainedUpdate(s.strt, b, [x] + s.strt[b]);
    forall c, y | 0 <= c < |s'.strt| && y in s'.strt[c] ensures InBucket(s', y, c) {
      assert y == x || y in s.strt[c];
      assert y != x ==> InBucket(s, y, c);
    }
    assert x !in s.strt[b] by {
      assert forall y :: y in s.strt[b] ==> InBucket(s, y, b);
    }
    forall i, j | 0 <= i < j < |s'.strt[b]| ensures s'.strt[b][i] != s'.strt[b][j] {
      assert s'.strt[b][j] == s.strt[b][j - 1];
    }
  }

  lemma ChainInv(s: State, x: Ref, text: seq<bv8>)
    requires Inv(s) && x !in s.objs && !Plain(x) && NoString(s, text) && |s.strt| > 0
    ensures Inv(Chain(s, x, text))
  {
    hide Bucket, StringTable, RootList, OpenLists, Kids, Lively, Swept, Clean, NoneDead, GrayLists, Tricolor;
    var s' := Chain(s, x, text);
    ChainStrings(s, x, text);
    FrameRoot(s, s');
    FrameOpen(s, s');
    NewOwnsNone(s, x);
    assert Kids(s', x) == [] by { StringKids(s', x); }
    CreatedLively(s, s', x);
    CreatedPhase(s, s', x);
  }

  lemma StringKids(s: State, x: Ref)
    requires x in s.objs && s.objs[x].kind.Str?
    ensures Kids(s, x) == []
  {
  }

  lemma ResizedLively(s: State, s': State)
    requires Lively(s) && SameRoots(s, s') && s'.objs == s.objs
    ensures Lively(s')
  {
    hide Kids;
    assert forall y :: y in s.objs ==> Kids(s', y) == Kids(s, y) by { SameEdges(s, s'); }
    forall y | Alive(s', y) ensures GoodKids(s', y) {
      assert Alive(s, y) && GoodKids(s, y);
      forall k | k in Kids(s', y) ensures GoodKid(s', s'.objs[y].kind, k) {
        assert GoodKid(s, s.objs[y].kind, k);
      }
    }
  }

  /** A string table of another size holding the same strings; not while strings are swept. */
  lemma ResizedInv(s: State, s': State)
    requires Inv(s) && s.phase != SweepString && s' == s.(strt := s'.strt) && StringTable(s')
    ensures Inv(s')
  {
    hide Bucket, StringTable, RootList, OpenLists, Lively;
    FrameRoot(s, s');
    FrameOpen(s, s');
    SameEdges(s, s');
    ResizedLively(s, s');
    match s.phase
    case Pause =>
    case Finalize =>
    case Propagate =>
      assert forall y :: GrayEntry(s', y) <==> GrayEntry(s, y);
      assert forall y :: Listed(s', y) <==> Listed(s, y);
    case Sweep =>
      forall y | y in s'.objs ensures s'.objs[y].color == s'.white || Ahead(s', y) {
        assert s.objs[y].color == s.white || Ahead(s, y);
      }
  }

  // ---- capturing a stack slot

  function NewUpvalue(s: State, x: Ref, th: Ref, level: nat, j: nat): State
    requires th in s.open && j <= |s.open[th]|
  {
    s.(objs := s.objs[x := Obj(OpenUpval(th, level), s.white, false, [])],
       open := s.open[th := InsertAt(s.open[th], j, x)], uvhead := [x] + s.uvhead)
  }

  /** The place in a thread's list where a level belongs. */
  ghost predicate Belongs(s: State, th: Ref, level: nat, j: nat)
    requires th in s.open && j <= |s.open[th]|
  {
    && (forall i :: 0 <= i < j && s.open[th][i] in s.objs && s.objs[s.open[th][i]].kind.OpenUpval? ==>
          s.objs[s.open[th][i]].kind.level > level)
    && (forall i :: j <= i < |s.open[th]| && s.open[th][i] in s.objs && s.objs[s.open[th][i]].kind.OpenUpval? ==>
          s.objs[s.open[th][i]].kind.level < level)
  }

  /** Everything after the first lower level is lower. */
  lemma RestBelongs(s: State, th: Ref, level: nat, j: nat)
    requires OpenLists(s) && th in s.open && j <= |s.open[th]|
    requires forall i :: 0 <= i < j ==> s.open[th][i] in s.objs && s.objs[s.open[th][i]].kind.OpenUpval?
                                        && s.objs[s.open[th][i]].kind.level > level
    requires j < |s.open[th]| ==> s.open[th][j] in s.objs && s.objs[s.open[th][j]].kind.OpenUpval?
                                  && s.objs[s.open[th][j]].kind.level < level
    ensures Belongs(s, th, level, j)
  {
    assert Descending(s, s.open[th]);
  }

  lemma NewUpvalHead(s: State, x: Ref, th: Ref, level: nat, j: nat)
    requires OpenLists(s) && x !in s.objs && th in s.open && j <= |s.open[th]| && Belongs(s, th, level, j)
    requires th in s.objs && level < |s.objs[th].slots|
    ensures Distinct(NewUpvalue(s, x, th, level, j).uvhead)
  {
    hide InsertAt, Descending;
    var s' := NewUpvalue(s, x, th, level, j);
    forall a, b | 0 <= a < b < |s'.uvhead| ensures s'.uvhead[a] != s'.uvhead[b] {
      assert s'.uvhead[b] == s.uvhead[b - 1];
      assert a > 0 ==> s'.uvhead[a] == s.uvhead[a - 1];
      assert s.uvhead[b - 1] in s.objs;
    }
  }

  lemma NewUpvalOpen(s: State, x: Ref, th: Ref, level: nat, j: nat)
    requires OpenLists(s) && x !in s.objs && th in s.open && j <= |s.open[th]| && Belongs(s, th, level, j)
    requires th in s.objs && level < |s.objs[th].slots|
    ensures OpenLists(NewUpvalue(s, x, th, level, j))
  {
    hide InsertAt, Descending;
    var s' := NewUpvalue(s, x, th, level, j);
    InsertedElements(s.open[th], j, x);
    NewUpvalHead(s, x, th, level, j);
    forall t, u | t in s'.open && u in s'.open[t] ensures OwnedBy(s', u, t) {
      assert u == x || OwnedBy(s, u, t);
    }
    forall t | t in s'.open ensures Descending(s', s'.open[t]) {
      if t == th {
        InsertedDescending(s, s', x, th, level, j);
      } else {
        forall u | u in s.open[t] ensures SameAs(s, s', u) {
          assert OwnedBy(s, u, t);
        }
        DescendingSame(s, s', s.open[t]);
      }
    }
  }

  lemma InsertedDescending(s: State, s': State, x: Ref, th: Ref, level: nat, j: nat)
    requires OpenLists(s) && x !in s.objs && th in s.open && j <= |s.open[th]| && Belongs(s, th, level, j)
    requires s' == NewUpvalue(s, x, th, level, j)
    ensures Descending(s', s'.open[th])
  {
    hide Descending, RootList, Kids;
    var q := s.open[th];
    var r := s'.open[th];
    forall i | 0 <= i < |q| ensures q[i] in s.objs && q[i] != x && s.objs[q[i]].kind.OpenUpval? {
      assert OwnedBy(s, q[i], th);
    }
    InsertedHigher(s, s', q, x, level, j);
  }

  lemma InsertedHigher(s: State, s': State, q: seq<Ref>, x: Ref, level: nat, j: nat)
    requires Descending(s, q) && j <= |q|
    requires forall i :: 0 <= i < |q| ==> q[i] in s.objs && q[i] != x && s.objs[q[i]].kind.OpenUpval?
    requires forall i :: 0 <= i < j ==> s.objs[q[i]].kind.level > level
    requires forall i :: j <= i < |q| ==> s.objs[q[i]].kind.level < level
    requires forall y :: y in q ==> y in s'.objs && s'.objs[y].kind == s.objs[y].kind
    requires x in s'.objs && s'.objs[x].kind.OpenUpval? && s'.objs[x].kind.level == level
    ensures Descending(s', InsertAt(q, j, x))
  {
    var r := InsertAt(q, j, x);
    forall a, b | 0 <= a < b < |r| ensures Higher(s', r[a], r[b]) {
      if a < j && b < j {
        assert Higher(s, q[a], q[b]) && q[a] in q && q[b] in q;
      } else if a < j && b > j {
        assert Higher(s, q[a], q[b - 1]) && q[a] in q && q[b - 1] in q;
      } else if a > j {
        assert Higher(s, q[a - 1], q[b - 1]) && q[a - 1] in q && q[b - 1] in q;
      } else if a == j {
        assert q[b - 1] in q;
      } else {
        assert q[a] in q;
      }
    }
  }

  lemma NewUpvalInv(s: State, x: Ref, th: Ref, level: nat, j: nat)
    requires Inv(s) && x !in s.objs && !Plain(x) && th in s.open && j <= |s.open[th]| && Belongs(s, th, level, j)
    requires Alive(s, th) && level < |s.objs[th].slots|
    ensures Inv(NewUpvalue(s, x, th, level, j))
  {
    hide Bucket, StringTable, RootList, OpenLists, Kids, Lively, InsertAt, Belongs, Swept, Clean, NoneDead, GrayLists,
           Tricolor;
    var s' := NewUpvalue(s, x, th, level, j);
    FrameStrings(s, s');
    FrameRoot(s, s');
    NewUpvalOpen(s, x, th, level, j);
    NewOwnsNone(s, x);
    ThreadOpen(s, th);
    SlotGood(s, th, level);
    UpvalKids(s', x);
    CreatedLively(s, s', x);
    CreatedPhase(s, s', x);
  }

  lemma UpvalKids(s: State, x: Ref)
    requires x in s.objs && s.objs[x].kind.OpenUpval? && s.objs[x].kind.owner in s.objs
    requires s.objs[x].kind.level < |s.objs[s.objs[x].kind.owner].slots|
    ensures Kids(s, x) == [s.objs[s.objs[x].kind.owner].slots[s.objs[x].kind.level]]
  {
  }

  /** What a stack slot of a living thread holds, an upvalue may hold. */
  lemma SlotGood(s: State, th: Ref, level: nat)
    requires Lively(s) && Alive(s, th) && s.objs[th].kind.Thread? && level < |s.objs[th].slots|
    ensures GoodKid(s, OpenUpval(th, level), s.objs[th].slots[level])
  {
    assert GoodKids(s, th);
    assert s.objs[th].slots[level] in Kids(s, th);
    assert GoodKid(s, Thread, s.objs[th].slots[level]);
  }

  /** A dead upvalue found again refers to a living value. */
  lemma FoundUpval(s: State, th: Ref, j: nat)
    requires Structure(s) && Lively(s) && th in s.open && Alive(s, th) && j < |s.open[th]|
    ensures s.open[th][j] in s.objs && GoodKids(s, s.open[th][j])
  {
    hide Bucket, StringTable, RootList, Lively;
    var u := s.open[th][j];
    assert OwnedBy(s, u, th);
    UpvalKids(s, u);
    SlotGood(s, th, s.objs[u].kind.level);
  }

  // ---- storing a reference, and the barriers

  function Stored(s: State, x: Ref, slots: seq<Ref>): State
    requires x in s.objs
  {
    s.(objs := s.objs[x := s.objs[x].(slots := slots)])
  }

  /** What is new in the slots is alive and may be there, and no captured stack slot goes away. */
  ghost predicate CanStore(s: State, x: Ref, slots: seq<Ref>) {
    && x in s.objs && !s.objs[x].kind.Str? && !s.objs[x].kind.OpenUpval?
    && (forall i :: 0 <= i < |slots| ==> Unchanged(s.objs[x].slots, slots, i) || GoodKid(s, s.objs[x].kind, slots[i]))
    && (forall u :: u in s.objs && s.objs[u].kind.OpenUpval? && s.objs[u].kind.owner == x ==>
         s.objs[u].kind.level < |slots|)
  }

  predicate Unchanged(a: seq<Ref>, b: seq<Ref>, i: nat)
    requires i < |b|
  {
    i < |a| && b[i] == a[i]
  }

  lemma StoredOpen(s: State, x: Ref, slots: seq<Ref>)
    requires OpenLists(s) && CanStore(s, x, slots)
    ensures OpenLists(Stored(s, x, slots))
  {
    hide Kids, GoodKid;
    var s' := Stored(s, x, slots);
    forall th, u | th in s.open && u in s.open[th] ensures OwnedBy(s', u, th) {
      assert OwnedBy(s, u, th);
    }
    forall th | th in s.open ensures Descending(s', s.open[th]) {
      assert Descending(s, s.open[th]);
    }
  }

  lemma StoredStructure(s: State, x: Ref, slots: seq<Ref>)
    requires Structure(s) && CanStore(s, x, slots)
    ensures Structure(Stored(s, x, slots))
  {
    hide Bucket, StringTable, RootList, OpenLists, Lively, Kids, GoodKid;
    var s' := Stored(s, x, slots);
    FrameRoot(s, s');
    FrameStrings(s, s');
    StoredOpen(s, x, slots);
    assert Legal(s.objs[x]);
  }

  lemma StoredKids(s: State, x: Ref, slots: seq<Ref>, y: Ref, k: Ref)
    requires Structure(s) && Lively(s) && CanStore(s, x, slots)
    requires Alive(s, y) && k in Kids(Stored(s, x, slots), y)
    ensures GoodKid(s, s.objs[y].kind, k)
  {
    hide Bucket, StringTable, RootList, Lively;
    var s' := Stored(s, x, slots);
    if y == x {
      assert k in slots;
      var i :| 0 <= i < |slots| && slots[i] == k;
      if Unchanged(s.objs[x].slots, slots, i) {
        assert k in Kids(s, x);
        LivelyKid(s, x, k);
      }
    } else if s.objs[y].kind.OpenUpval? && s.objs[y].kind.owner == x {
      OwnerThere(s, y);
      UpvalKids(s, y);
      UpvalKids(s', y);
      var i := s.objs[y].kind.level;
      assert k == slots[i];
      if Unchanged(s.objs[x].slots, slots, i) {
        LivelyKid(s, y, k);
      }
    } else {
      assert Kids(s', y) == Kids(s, y);
      LivelyKid(s, y, k);
    }
  }

  lemma LivelyKid(s: State, y: Ref, k: Ref)
    requires Lively(s) && Alive(s, y) && k in Kids(s, y)
    ensures GoodKid(s, s.objs[y].kind, k)
  {
    assert GoodKids(s, y);
  }

  lemma StoredLively(s: State, x: Ref, slots: seq<Ref>)
    requires Structure(s) && Lively(s) && CanStore(s, x, slots)
    ensures Lively(Stored(s, x, slots))
  {
    hide Structure, Kids, CanStore;
    assert x in s.objs by { StoredThere(s, x, slots); }
    var s' := Stored(s, x, slots);
    forall y | Alive(s', y) ensures GoodKids(s', y) {
      forall k | k in Kids(s', y) ensures GoodKid(s', s'.objs[y].kind, k) {
        StoredKids(s, x, slots, y, k);
      }
    }
  }

  lemma StoredThere(s: State, x: Ref, slots: seq<Ref>)
    requires CanStore(s, x, slots)
    ensures x in s.objs
  {
  }

  lemma StoredOthers(s: State, x: Ref, slots: seq<Ref>, y: Ref)
    requires x in s.objs && y in s.objs && y != x && !s.objs[y].kind.OpenUpval?
    ensures Kids(Stored(s, x, slots), y) == Kids(s, y)
  {
  }

  /** The invariant, except that `x` may be marked and refer to something that is not. */
  ghost predicate InvBut(s: State, x: Ref) {
    && Structure(s) && Lively(s)
    && match s.phase
       case Pause => Clean(s)
       case Finalize => Clean(s)
       case Propagate =>
         && NoneDead(s) && GrayLists(s) && Tricolor(s, Again(s) + OpenUpvals(s) + {x})
         && Marked(s, s.mainthread) && Marked(s, s.registry)
       case SweepString => Swept(s) && s.sweepgc == 0 && s.sweepstrgc < |s.strt|
       case Sweep => Swept(s)
  }

  lemma StoredTricolor(s: State, x: Ref, slots: seq<Ref>)
    requires x in s.objs && !s.objs[x].kind.Str? && !s.objs[x].kind.OpenUpval? && OpenLists(s)
    requires NoneDead(s) && GrayLists(s) && Tricolor(s, Again(s) + OpenUpvals(s))
    ensures var s' := Stored(s, x, slots);
            NoneDead(s') && GrayLists(s') && Tricolor(s', Again(s') + OpenUpvals(s') + {x})
  {
    hide Kids;
    var s' := Stored(s, x, slots);
    var pend := Again(s') + OpenUpvals(s') + {x};
    assert forall y :: Marked(s', y) <==> Marked(s, y);
    assert forall y :: GrayEntry(s', y) <==> GrayEntry(s, y);
    assert forall y :: Listed(s', y) <==> Listed(s, y);
    forall y | Marked(s', y) ensures y in s'.gray || y in pend || KidsMarked(s', y) {
      if y != x && !s.objs[y].kind.OpenUpval? {
        StoredOthers(s, x, slots, y);
      }
    }
  }

  lemma StoredSwept(s: State, x: Ref, slots: seq<Ref>)
    requires Swept(s) && x in s.objs
    ensures Swept(Stored(s, x, slots))
  {
    hide Bucket;
    var s' := Stored(s, x, slots);
    forall y | y in s'.objs ensures s'.objs[y].color == s'.white || Ahead(s', y) {
      assert s.objs[y].color == s.white || Ahead(s, y);
    }
  }

  lemma StoredBut(s: State, x: Ref, slots: seq<Ref>)
    requires Inv(s) && CanStore(s, x, slots)
    ensures x in s.objs && InvBut(Stored(s, x, slots), x)
  {
    hide Bucket, StringTable, RootList, OpenLists, Lively, Kids, NoneDead, GrayLists, Tricolor, Swept;
    StoredStructure(s, x, slots);
    StoredLively(s, x, slots);
    match s.phase
    case Pause =>
    case Finalize =>
    case Propagate => StoredTricolor(s, x, slots);
    case SweepString => StoredSwept(s, x, slots);
    case Sweep => StoredSwept(s, x, slots);
  }

  /** Nothing is missing when the object is not marked, still waits in a list, or refers to marked objects only. */
  lemma ButInv(s: State, x: Ref)
    requires InvBut(s, x)
    requires s.phase == Propagate && Marked(s, x) ==>
               GrayEntry(s, x) || (KidsMarked(s, x) && s.objs[x].color == Black)
    ensures Inv(s)
  {
    hide Structure, Lively, NoneDead, Kids, Swept;
    if s.phase == Propagate {
      if GrayEntry(s, x) {
        assert Listed(s, x);
      }
    }
  }

  /** What a black object referred to before the store is marked. */
  lemma BlackKids(s: State, x: Ref)
    requires Inv(s) && s.phase == Propagate && x in s.objs && s.objs[x].color == Black
    ensures KidsMarked(s, x)
  {
    hide Lively, NoneDead, Kids, StringTable, RootList;
    assert !GrayEntry(s, x);
    assert Legal(s.objs[x]);
    assert !Listed(s, x);
    assert x !in s.uvhead;
  }

  /** The backward barrier: a black table turns gray again and waits for the atomic step. */
  function Backed(s: State, t: Ref): State
    requires t in s.objs
  {
    Recolor(s, t, Gray).(grayagain := [t] + s.grayagain)
  }

  lemma BackedLists(s: State, t: Ref)
    requires GrayLists(s) && t in s.objs && s.objs[t].color == Black && s.objs[t].kind.Table?
    ensures GrayLists(Backed(s, t))
  {
    var s' := Backed(s, t);
    assert !GrayEntry(s, t);
    assert !Listed(s, t);
    assert forall y :: Listed(s', y) <==> y == t || Listed(s, y);
    assert forall y :: y != t ==> (GrayEntry(s', y) <==> GrayEntry(s, y));
    var q, r := s.gray + s.grayagain, s'.gray + s'.grayagain;
    var n := |s.gray|;
    assert forall i :: 0 <= i < |r| ==> r[i] == if i < n then q[i] else if i == n then t else q[i - 1];
    forall i | 0 <= i < |q| ensures q[i] != t {
      assert Listed(s, q[i]);
    }
    forall i, j | 0 <= i < j < |r| ensures r[i] != r[j] {
      if i == n {
        assert q[j - 1] != t;
      } else if j == n {
        assert q[i] != t;
      } else {
        assert q[if i < n then i else i - 1] != q[if j < n then j else j - 1];
      }
    }
  }

  lemma BackedTricolor(s: State, t: Ref)
    requires Tricolor(s, Again(s) + OpenUpvals(s) + {t}) && t in s.objs && s.objs[t].color == Black
               && s.objs[t].kind.Table?
    ensures Tricolor(Backed(s, t), Again(Backed(s, t)) + OpenUpvals(Backed(s, t)))
  {
    hide Kids;
    var s' := Backed(s, t);
    assert SameHeap(s, s');
    assert t in s'.grayagain;
    forall y | Marked(s', y) ensures y in s'.gray || y in Again(s') + OpenUpvals(s') || KidsMarked(s', y) {
      if y != t && KidsMarked(s, y) {
        SameMarksKids(s, s', y);
      }
    }
  }

  lemma BackedInv(s: State, t: Ref)
    requires InvBut(s, t) && t in s.objs && s.objs[t].color == Black && s.objs[t].kind.Table?
    ensures Inv(Backed(s, t))
  {
    hide Bucket, StringTable, RootList, OpenLists, Lively, Kids, GrayLists, Tricolor;
    var s' := Backed(s, t);
    assert SameHeap(s, s');
    forall y | Alive(s', y) ensures GoodKids(s, y) {
      LivelyKids(s, y);
    }
    RecoloredLively(s, s');
    assert IsWhite(s.white);
    match s.phase
    case Propagate =>
      BackedLists(s, t);
      BackedTricolor(s, t);
    case SweepString => BackedSwept(s, t);
    case Sweep => BackedSwept(s, t);
    case Pause => assert false;
    case Finalize => assert false;
  }

  lemma LivelyKids(s: State, y: Ref)
    requires Lively(s) && Alive(s, y)
    ensures GoodKids(s, y)
  {
  }

  lemma BackedSwept(s: State, t: Ref)
    requires Swept(s) && t in s.objs && s.objs[t].color != s.white
    ensures Swept(Backed(s, t))
  {
    hide Bucket;
    var s' := Backed(s, t);
    forall y | y in s'.objs ensures s'.objs[y].color == s'.white || Ahead(s', y) {
      assert s.objs[y].color == s.white || Ahead(s, y);
    }
  }

  lemma ButMarking(s: State, x: Ref)
    requires InvBut(s, x) && s.phase == Propagate
    ensures Marking(s, Again(s) + OpenUpvals(s) + {x}) && Marked(s, s.mainthread) && Marked(s, s.registry)
  {
    hide Structure, Lively, NoneDead, GrayLists, Tricolor;
  }

  lemma ButSweeping(s: State, x: Ref)
    requires InvBut(s, x) && (s.phase == SweepString || s.phase == Sweep)
    ensures Sweeping(s)
  {
    hide Structure, Lively, Swept;
  }

  /** Black objects exist while marking and while sweeping only. */
  lemma BlackPhase(s: State, x: Ref)
    requires InvBut(s, x) && x in s.objs && s.objs[x].color == Black
    ensures s.phase != Pause && s.phase != Finalize && Alive(s, x)
  {
    hide Lively, Swept, NoneDead, GrayLists, Tricolor, RootList, StringTable, OpenLists;
  }

  /** After the forward barrier has marked the one reference that was missing. */
  lemma ForwardInv(s: State, s': State, o: Ref, v: Ref, pend: set<Ref>)
    requires Marking(s', pend + {o}) && pend == Again(s) + OpenUpvals(s) && s.phase == Propagate
    requires Grew(s, s') && o in s.objs && s.objs[o].color == Black && Marked(s', v)
    requires forall k :: k in Kids(s, o) ==> Plain(k) || k == v || Marked(s, k)
    requires Marked(s, s.mainthread) && Marked(s, s.registry)
    ensures Inv(s')
  {
    hide Structure, Lively, NoneDead, GrayLists, Tricolor, Kids, Grew;
    GrewObj(s, s', o);
    forall k | k in Kids(s', o) ensures Plain(k) || Marked(s', k) {
      if !Plain(k) && k != v { GrewMarked(s, s', k); }
    }
    GrewMarked(s, s', o);
    BlackStays(s, s', o);
    Unpend(s', o, pend);
    GrewMarked(s, s', s.mainthread);
    GrewMarked(s, s', s.registry);
    GrewShape(s, s');
    MarkingInv(s', pend);
  }

  lemma BlackStays(s: State, s': State, o: Ref)
    requires Grew(s, s') && o in s.objs && s.objs[o].color == Black
    ensures o in s'.objs && s'.objs[o].color == Black
  {
    assert SameObj(s, s', o);
  }

  lemma GrewShape(s: State, s': State)
    requires Grew(s, s')
    ensures s'.phase == s.phase && s'.mainthread == s.mainthread && s'.registry == s.registry
    ensures Again(s') == Again(s) && OpenUpvals(s') == OpenUpvals(s)
  {
  }

  // ---- closing an upvalue that is not dead

  /** Closed and linked into the main list; a gray one turns black while marking, white while sweeping. */
  function ClosedLinked(s: State, th: Ref): State
    requires th in s.open && s.open[th] != [] && s.open[th][0] in s.objs && s.objs[s.open[th][0]].kind.OpenUpval?
  {
    var x := s.open[th][0];
    var t := ClosedUpvalue(s, th);
    if s.objs[x].color != Gray then t
    else Recolor(t, x, if s.phase == Propagate then Black else s.white)
  }

  lemma RecoloredKids(s: State, x: Ref, c: Color, y: Ref)
    requires x in s.objs && y in s.objs
    ensures Kids(Recolor(s, x, c), y) == Kids(s, y)
  {
    SameKids(s, Recolor(s, x, c), y);
  }

  lemma ClosedLinkedLively(s: State, th: Ref)
    requires Structure(s) && Lively(s) && th in s.open && s.open[th] != [] && OwnedBy(s, s.open[th][0], th)
    requires Alive(s, s.open[th][0])
    ensures Structure(ClosedLinked(s, th)) && Lively(ClosedLinked(s, th))
    ensures forall y :: y in s.objs ==> y in ClosedLinked(s, th).objs && Kids(ClosedLinked(s, th), y) == Kids(s, y)
  {
    hide Bucket, StringTable, RootList, OpenLists, Kids, ClosedUpvalue;
    ClosedLively(s, th);
    ClosedShape(s, th);
    var x := s.open[th][0];
    var t := ClosedUpvalue(s, th);
    var s' := ClosedLinked(s, th);
    if s.objs[x].color == Gray {
      assert SameHeap(t, s');
      assert Legal(t.objs[x]) && IsWhite(s.white);
      forall y | Alive(s', y) ensures GoodKids(t, y) {
        LivelyKids(t, y);
      }
      RecoloredLively(t, s');
      forall y | y in s.objs ensures Kids(s', y) == Kids(s, y) {
        RecoloredKids(t, x, s'.objs[x].color, y);
      }
    }
  }

  lemma ClosedShape(s: State, th: Ref)
    requires th in s.open && s.open[th] != [] && s.open[th][0] in s.objs && s.objs[s.open[th][0]].kind.OpenUpval?
    ensures var x, t := s.open[th][0], ClosedUpvalue(s, th);
            && t.objs == s.objs[x := t.objs[x]] && t.objs[x].kind.ClosedUpval? && t.objs[x].color == s.objs[x].color
            && t == s.(objs := t.objs, open := t.open, uvhead := t.uvhead, rootgc := t.rootgc, sweepgc := t.sweepgc)
            && t.uvhead == Without(s.uvhead, x) && t.rootgc == [x] + s.rootgc
            && t.sweepgc == Shifted(s.sweepgc, 0)
  {
  }

  lemma ClosedTricolor(s: State, s': State, x: Ref)
    requires NoneDead(s) && GrayLists(s) && Tricolor(s, Again(s) + OpenUpvals(s)) && IsWhite(s.white)
    requires x in s.objs && s.objs[x].kind.OpenUpval? && x in s'.objs && s'.objs == s.objs[x := s'.objs[x]]
    requires s'.objs[x].kind.ClosedUpval? && s'.objs[x].color
               == (if s.objs[x].color == Gray then Black else s.objs[x].color)
    requires s'.gray == s.gray && s'.grayagain == s.grayagain && s'.white == s.white
    requires forall u :: u in s.uvhead && u != x ==> u in s'.uvhead
    requires forall y :: y in s.objs ==> Kids(s', y) == Kids(s, y)
    ensures NoneDead(s') && GrayLists(s') && Tricolor(s', Again(s') + OpenUpvals(s') + {x})
    ensures forall y :: Marked(s, y) ==> Marked(s', y)
  {
    hide Kids;
    assert forall y :: Marked(s', y) <==> Marked(s, y);
    assert forall y :: GrayEntry(s', y) <==> GrayEntry(s, y);
    assert forall y :: Listed(s', y) <==> Listed(s, y);
  }

  lemma ClosedSwept(s: State, s': State, x: Ref)
    requires Swept(s) && x in s.objs && s.objs[x].kind.OpenUpval? && x in s'.objs && s'.objs == s.objs[x := s'.objs[x]]
    requires s'.objs[x].color == s.white && s'.white == s.white && s'.phase == s.phase
    requires s'.strt == s.strt && s'.sweepstrgc == s.sweepstrgc && s.sweepgc <= |s.rootgc|
    requires s'.rootgc == [x] + s.rootgc && s'.sweepgc == Shifted(s.sweepgc, 0)
    ensures Swept(s')
  {
    hide Bucket;
    assert s'.rootgc == InsertAt(s.rootgc, 0, x);
    InsertedRest(s.rootgc, 0, x, s.sweepgc);
    forall y | y in s'.objs ensures s'.objs[y].color == s'.white || Ahead(s', y) {
      if y != x {
        assert s.objs[y].color == s.white || Ahead(s, y);
      }
    }
  }

  lemma ClosedBut(s: State, th: Ref)
    requires Inv(s) && th in s.open && s.open[th] != []
    requires OwnedBy(s, s.open[th][0], th) && Alive(s, s.open[th][0])
    ensures InvBut(ClosedLinked(s, th), s.open[th][0])
    ensures forall y :: y in s.objs ==> y in ClosedLinked(s, th).objs && Kids(ClosedLinked(s, th), y) == Kids(s, y)
  {
    hide Bucket, StringTable, RootList, OpenLists, Kids, Lively, GrayLists, Tricolor, ClosedUpvalue, NoneDead, Swept;
    var x := s.open[th][0];
    var s' := ClosedLinked(s, th);
    ClosedLinkedLively(s, th);
    ClosedShape(s, th);
    WithoutOnce(s.uvhead, x) by { UvheadDistinct(s); }
    assert s.objs[x].color == s.white || s.objs[x].color == Gray by { assert Legal(s.objs[x]); AliveColor(s, x); }
    match s.phase
    case Pause => ClosedClean(s, s', x);
    case Finalize => ClosedClean(s, s', x);
    case Propagate => ClosedTricolor(s, s', x);
    case SweepString => ClosedSwept(s, s', x);
    case Sweep => ClosedSwept(s, s', x);
  }

  lemma ClosedClean(s: State, s': State, x: Ref)
    requires Clean(s) && x in s.objs && IsWhite(s.white)
    requires x in s'.objs && s'.objs == s.objs[x := s'.objs[x]] && s'.white == s.white
    requires s.objs[x].color != Gray ==> s'.objs[x].color == s.objs[x].color
    ensures Clean(s')
  {
  }

  lemma AliveColor(s: State, x: Ref)
    requires Alive(s, x) && IsWhite(s.white)
    ensures s.objs[x].color == s.white || s.objs[x].color == Gray || s.objs[x].color == Black
  {
  }

  lemma UvheadDistinct(s: State)
    requires OpenLists(s)
    ensures Distinct(s.uvhead)
  {
  }

  // ---- the roots

  lemma RootsLively(s: State, s': State)
    requires Lively(s) && s' == s.(running := s'.running, mt := s'.mt)
    requires Alive(s, s'.running) && s.objs[s'.running].kind.Thread?
    requires forall x :: x in s'.mt ==> Alive(s, x) && s.objs[x].kind.Table?
    ensures Lively(s')
  {
    hide Kids;
    assert forall y :: y in s.objs ==> Kids(s', y) == Kids(s, y) by { SameEdges(s, s'); }
    forall y | Alive(s', y) ensures GoodKids(s', y) {
      assert Alive(s, y) && GoodKids(s, y);
      forall k | k in Kids(s', y) ensures GoodKid(s', s'.objs[y].kind, k) {
        assert GoodKid(s, s.objs[y].kind, k);
      }
    }
  }

  lemma RootsMarking(s: State, s': State)
    requires s' == s.(running := s'.running, mt := s'.mt)
    requires NoneDead(s) && GrayLists(s) && Tricolor(s, Again(s) + OpenUpvals(s))
    ensures NoneDead(s') && GrayLists(s') && Tricolor(s', Again(s') + OpenUpvals(s'))
    ensures forall y :: Marked(s', y) <==> Marked(s, y)
  {
    SameEdges(s, s');
    assert forall y :: GrayEntry(s', y) <==> GrayEntry(s, y);
    assert forall y :: Listed(s', y) <==> Listed(s, y);
  }

  lemma RootsInv(s: State, s': State)
    requires Inv(s) && s' == s.(running := s'.running, mt := s'.mt)
    requires Alive(s, s'.running) && s.objs[s'.running].kind.Thread?
    requires forall x :: x in s'.mt ==> Alive(s, x) && s.objs[x].kind.Table?
    ensures Inv(s')
  {
    hide Bucket, StringTable, RootList, OpenLists, Lively, GrayLists, Tricolor, NoneDead, Swept;
    SameLists(s, s');
    RootsLively(s, s');
    match s.phase
    case Pause =>
    case Finalize =>
    case Propagate => RootsMarking(s, s');
    case SweepString => RootsSwept(s, s');
    case Sweep => RootsSwept(s, s');
  }

  lemma RootsSwept(s: State, s': State)
    requires Swept(s) && s' == s.(running := s'.running, mt := s'.mt)
    ensures Swept(s')
  {
    forall y | y in s'.objs ensures s'.objs[y].color == s'.white || Ahead(s', y) {
      assert s.objs[y].color == s.white || Ahead(s, y);
    }
  }

  // ---- facts for the steps of the collector

  lemma MarkingWithin(s: State, pend: set<Ref>)
    requires Marking(s, pend)
    ensures Within(s, s.objs.Keys)
  {
    hide Structure, GrayLists, Tricolor;
    AllWithin(s);
  }

  lemma NotMarked(s: State, v: Ref)
    requires v in s.objs && IsWhite(s.objs[v].color)
    ensures !Marked(s, v)
  {
  }

  lemma GrewMarking(s: State, s': State, pend: set<Ref>)
    requires Marking(s, pend) && Grew(s, s')
    ensures SweptTo(s, s') && SameObjs(s.objs, s'.objs)
  {
    hide Lively, GrayLists, Tricolor, RootList, StringTable, OpenLists, SweptTo, Grew;
    assert IsWhite(s.white);
    GrewSwept(s, s');
    GrewAdvanced(s, s');
    AdvancedSameObjs(s, s');
  }

  lemma ButPlace(s: State, s': State, o: Ref)
    requires InvBut(s, o) && (s.phase == SweepString || s.phase == Sweep) && Sweeping(s')
    requires s'.phase == s.phase && s'.strt == s.strt && s'.sweepstrgc == s.sweepstrgc
    ensures Inv(s')
  {
    hide Structure, Lively, Swept;
  }

  lemma RecoloredObjs(s: State, x: Ref, c: Color)
    requires x in s.objs
    ensures SameObjs(s.objs, Recolor(s, x, c).objs)
  {
  }

  lemma SameSelf(objs: map<Ref, Obj>)
    ensures SameObjs(objs, objs)
  {
  }

  lemma SameTrans(a: map<Ref, Obj>, b: map<Ref, Obj>, c: map<Ref, Obj>)
    requires SameObjs(a, b) && SameObjs(b, c)
    ensures SameObjs(a, c)
  {
  }

  /** A closed upvalue holds the value the stack slot had. */
  lemma UpvalClosed(s: State, th: Ref)
    requires Inv(s) && th in s.open && s.open[th] != [] && OwnedBy(s, s.open[th][0], th) && Alive(s, s.open[th][0])
    ensures var x, t := s.open[th][0], ClosedUpvalue(s, th);
            && x in t.objs && t.objs[x].slots == [s.objs[th].slots[s.objs[x].kind.level]]
                 && t.objs[x].slots == Kids(s, x)
            && (Plain(t.objs[x].slots[0]) || t.objs[x].slots[0] in s.objs)
            && s.objs[x].color != Black
  {
    hide Bucket, StringTable, RootList, OpenLists, Without;
    var x := s.open[th][0];
    UpvalKids(s, x);
    LivelyKid(s, x, Kids(s, x)[0]);
    assert Legal(s.objs[x]);
  }

  lemma ClosedParts(s: State, th: Ref)
    requires Inv(s) && th in s.open && s.open[th] != [] && OwnedBy(s, s.open[th][0], th) && Alive(s, s.open[th][0])
    ensures var x := s.open[th][0];
            && ClosedUpvalue(s, th).(rootgc := s.rootgc, sweepgc := s.sweepgc)
               == s.(objs := s.objs[x := Obj(ClosedUpval, s.objs[x].color, s.objs[x].fixed,
                   [s.objs[th].slots[s.objs[x].kind.level]])],
                     open := s.open[th := s.open[th][1..]], uvhead := Without(s.uvhead, x))
            && |Without(s.uvhead, x)| == |s.uvhead| - 1
  {
    hide Inv, Without;
    UpvalClosed(s, th);
    InvOwned(s, th, 0);
    WithoutSize(s.uvhead, s.open[th][0]);
  }

  lemma OneSwept(s: State, s': State, x: Ref)
    requires x in s.objs && x in s'.objs && s'.objs == s.objs[x := s'.objs[x]] && SameRoots(s, s')
    requires s'.objs[x].fixed == s.objs[x].fixed && Alive(s, x) && Alive(s', x)
    requires forall y :: y in s.objs ==> Kids(s', y) == Kids(s, y)
    ensures SweptTo(s, s')
  {
    hide Kids;
    forall y ensures Alive(s', y) <==> Alive(s, y) {
    }
  }

  lemma ClosedSweptTo(s: State, th: Ref)
    requires Inv(s) && th in s.open && s.open[th] != [] && OwnedBy(s, s.open[th][0], th) && Alive(s, s.open[th][0])
    ensures SweptTo(s, ClosedLinked(s, th))
    ensures SameObjs(ClosedUpvalue(s, th).objs, ClosedLinked(s, th).objs)
  {
    hide Inv, InvBut, ClosedUpvalue, Kids, SweptTo, SameObjs;
    ClosedBut(s, th);
    ClosedShape(s, th);
    ClosedFixed(s, th);
    InvWhite(s);
    var x := s.open[th][0];
    var t := ClosedUpvalue(s, th);
    OneSwept(s, ClosedLinked(s, th), x);
    RecoloredObjs(t, x, ClosedLinked(s, th).objs[x].color);
    SameSelf(t.objs);
  }

  lemma ClosedFixed(s: State, th: Ref)
    requires th in s.open && s.open[th] != [] && s.open[th][0] in s.objs && s.objs[s.open[th][0]].kind.OpenUpval?
    ensures ClosedUpvalue(s, th).objs[s.open[th][0]].fixed == s.objs[s.open[th][0]].fixed
  {
  }

  lemma NotGray(s: State, x: Ref)
    requires x in s.objs && s.objs[x].color != Gray && s.objs[x].color != Black
    ensures !Marked(s, x)
  {
  }

  // ---- rehashing the string table

  const MINSTRTABSIZE := 32

  lemma PowerPositive(n: nat)
    requires PowerOfTwo(n)
    ensures n > 0
  {
  }

  /** The string was in the first `i` buckets, or among the first `j` of the next. */
  ghost predicate Seen(s: State, y: Ref, i: nat, j: nat)
    requires |s.strt| > 0
  {
    && y in s.objs && s.objs[y].kind.Str?
    && var b := Bucket(s.objs[y].kind.text, |s.strt|);
       b < i || (b == i && j <= |s.strt[b]| && y in s.strt[b][..j])
  }

  /** `h` holds the strings seen so far, each once and in the bucket of its new size. */
  ghost predicate Rehashed(s: State, h: seq<seq<Ref>>, i: nat, j: nat) {
    && |h| > 0 && |s.strt| > 0 && i <= |s.strt|
    && (forall c :: 0 <= c < |h| ==> Distinct(h[c]))
    && (forall c, y :: 0 <= c < |h| && y in h[c] ==> Seen(s, y, i, j) && Bucket(s.objs[y].kind.text, |h|) == c)
    && (forall y :: Seen(s, y, i, j) ==> y in h[Bucket(s.objs[y].kind.text, |h|)])
    && Chained(h) == Chained(s.strt[..i]) + j
  }

  lemma {:induction false} ChainedEmpty(h: seq<seq<Ref>>)
    requires forall c :: 0 <= c < |h| ==> h[c] == []
    ensures Chained(h) == 0
    decreases |h|
  {
    if h != [] {
      ChainedEmpty(h[..|h| - 1]);
    }
  }

  lemma RehashedNone(s: State, h: seq<seq<Ref>>)
    requires Inv(s) && |h| > 0 && forall c :: 0 <= c < |h| ==> h[c] == []
    ensures Rehashed(s, h, 0, 0)
  {
    hide Bucket, Lively, RootList, OpenLists;
    ChainedEmpty(h);
    assert s.strt[..0] == [];
    assert |s.strt| > 0 by { NonemptyTable(s); }
  }

  lemma InvBucket(s: State, b: nat, j: nat)
    requires Inv(s) && b < |s.strt| && j < |s.strt[b]|
    ensures InBucket(s, s.strt[b][j], b) && Distinct(s.strt[b]) && s.strt[b][j] in s.objs
  {
    hide Bucket, Lively, RootList, OpenLists;
    BucketOf(s, b, j);
    BucketDistinct(s, b);
  }

  lemma SeenNext(s: State, i: nat, j: nat, y: Ref)
    requires i < |s.strt| && j < |s.strt[i]| && InBucket(s, s.strt[i][j], i) && Distinct(s.strt[i])
    ensures !Seen(s, s.strt[i][j], i, j)
    ensures Seen(s, y, i, j + 1) <==> Seen(s, y, i, j) || y == s.strt[i][j]
  {
    hide Bucket;
    var p := s.strt[i][j];
    assert s.strt[i][..j + 1] == s.strt[i][..j] + [p];
    assert p !in s.strt[i][..j];
  }

  lemma PushedDistinct(q: seq<Ref>, p: Ref)
    requires Distinct(q) && p !in q
    ensures Distinct([p] + q)
  {
    forall a, b | 0 <= a < b < |q| + 1 ensures ([p] + q)[a] != ([p] + q)[b] {
      assert ([p] + q)[b] == q[b - 1];
      assert a > 0 ==> ([p] + q)[a] == q[a - 1];
    }
  }

  lemma RehashedNext(s: State, h: seq<seq<Ref>>, i: nat, j: nat)
    requires Rehashed(s, h, i, j) && i < |s.strt| && j < |s.strt[i]|
    requires InBucket(s, s.strt[i][j], i) && Distinct(s.strt[i])
    ensures var p := s.strt[i][j];
            var c := Bucket(s.objs[p].kind.text, |h|);
            Rehashed(s, h[c := [p] + h[c]], i, j + 1)
  {
    hide Bucket, Distinct;
    var p := s.strt[i][j];
    var c := Bucket(s.objs[p].kind.text, |h|);
    var h' := h[c := [p] + h[c]];
    ChainedUpdate(h, c, [p] + h[c]);
    SeenNext(s, i, j, p);
    PushedDistinct(h[c], p);
    forall a, y | 0 <= a < |h'| && y in h'[a]
      ensures y in s.objs && s.objs[y].kind.Str? && Seen(s, y, i, j + 1) && Bucket(s.objs[y].kind.text, |h'|) == a
    {
      PushedMember(s, h, i, j, a, y);
    }
    forall y | Seen(s, y, i, j + 1)
      ensures y in s.objs && s.objs[y].kind.Str? && y in h'[Bucket(s.objs[y].kind.text, |h'|)]
    {
      SeenNext(s, i, j, y);
      SeenString(s, y, i, j + 1);
    }
  }

  lemma PushedMember(s: State, h: seq<seq<Ref>>, i: nat, j: nat, a: nat, y: Ref)
    requires Rehashed(s, h, i, j) && i < |s.strt| && j < |s.strt[i]|
    requires InBucket(s, s.strt[i][j], i) && Distinct(s.strt[i])
    requires var p := s.strt[i][j]; var c := Bucket(s.objs[p].kind.text, |h|); a < |h| && y in h[c := [p] + h[c]][a]
    ensures Seen(s, y, i, j + 1) && y in s.objs && s.objs[y].kind.Str? && Bucket(s.objs[y].kind.text, |h|) == a
  {
    hide Bucket, Distinct;
    var p := s.strt[i][j];
    SeenNext(s, i, j, y);
    assert y == p || y in h[a];
    SeenNext(s, i, j, p);
  }

  lemma SeenString(s: State, y: Ref, i: nat, j: nat)
    requires |s.strt| > 0 && Seen(s, y, i, j)
    ensures y in s.objs && s.objs[y].kind.Str?
  {
  }

  lemma RehashedBucket(s: State, h: seq<seq<Ref>>, i: nat)
    requires i < |s.strt| && Rehashed(s, h, i, |s.strt[i]|) && Inv(s)
    ensures Rehashed(s, h, i + 1, 0)
  {
    hide Bucket, Inv, Distinct;
    var upto := s.strt[..i + 1];
    assert upto[..i] == s.strt[..i] && upto[i] == s.strt[i];
    assert Chained(upto) == Chained(s.strt[..i]) + |s.strt[i]|;
    assert s.strt[i][..|s.strt[i]|] == s.strt[i];
    forall y ensures Seen(s, y, i + 1, 0) <==> Seen(s, y, i, |s.strt[i]|) {
      if y in s.objs && s.objs[y].kind.Str? {
        InvInBucket(s, y);
      }
    }
    RehashedOn(s, h, i, |s.strt[i]|, i + 1, 0);
  }

  /** What has been rehashed depends only on what has been seen. */
  lemma RehashedOn(s: State, h: seq<seq<Ref>>, i: nat, j: nat, i': nat, j': nat)
    requires Rehashed(s, h, i, j) && i' <= |s.strt| && forall y :: Seen(s, y, i', j') <==> Seen(s, y, i, j)
    requires Chained(s.strt[..i']) + j' == Chained(s.strt[..i]) + j
    ensures Rehashed(s, h, i', j')
  {
    hide Bucket, Distinct, Chained;
  }

  lemma InvInBucket(s: State, x: Ref)
    requires Inv(s) && x in s.objs && s.objs[x].kind.Str?
    ensures |s.strt| > 0 && x in s.strt[Bucket(s.objs[x].kind.text, |s.strt|)]
  {
    hide Bucket, Lively, RootList, OpenLists;
    InItsBucket(s, x);
  }

  lemma SeenAll(s: State, y: Ref)
    requires |s.strt| > 0 && y in s.objs && s.objs[y].kind.Str?
    ensures Seen(s, y, |s.strt|, 0)
  {
    hide Bucket;
  }

  lemma RehashedBuckets(s: State, h: seq<seq<Ref>>)
    requires Rehashed(s, h, |s.strt|, 0)
    ensures forall c, y :: 0 <= c < |h| && y in h[c] ==> InBucket(s.(strt := h), y, c)
    ensures forall y :: y in s.objs && s.objs[y].kind.Str? ==> y in h[Bucket(s.objs[y].kind.text, |h|)]
    ensures Chained(h) == Chained(s.strt)
  {
    hide Bucket, Chained, Seen, Distinct;
    assert s.strt[..|s.strt|] == s.strt;
    forall c, y | 0 <= c < |h| && y in h[c] ensures InBucket(s.(strt := h), y, c) {
      SeenString(s, y, |s.strt|, 0);
    }
    forall y | y in s.objs && s.objs[y].kind.Str? ensures y in h[Bucket(s.objs[y].kind.text, |h|)] {
      SeenAll(s, y);
    }
  }

  lemma RehashedAll(s: State, h: seq<seq<Ref>>)
    requires StringTable(s) && Rehashed(s, h, |s.strt|, 0) && PowerOfTwo(|h|)
    ensures StringTable(s.(strt := h))
  {
    hide Bucket, PowerOfTwo, Chained, InBucket, Seen, Distinct;
    RehashedBuckets(s, h);
  }

  lemma InvStrings(s: State)
    requires Inv(s)
    ensures StringTable(s)
  {
    hide StringTable, Lively, RootList, OpenLists;
  }

  lemma InvPower(s: State)
    requires Inv(s) && |s.strt| > 1
    ensures PowerOfTwo(|s.strt| / 2)
  {
    hide Bucket, Lively, RootList, OpenLists;
  }

  // ---- facts for the methods of the program

  const MAX_INT := 2147483645

  function IndexOf(q: seq<Ref>, x: Ref): (i: nat)
    requires x in q
    ensures i < |q| && q[i] == x
  {
    if q[0] == x then 0 else 1 + IndexOf(q[1..], x)
  }

  lemma InvMain(s: State)
    requires Inv(s)
    ensures s.mainthread in s.rootgc
  {
    hide StringTable, OpenLists;
    assert s.objs[s.mainthread].kind.Thread?;
  }

  /** Slot `i` overwritten, or one slot more. */
  function Put(slots: seq<Ref>, i: nat, v: Ref): seq<Ref>
    requires i <= |slots|
  {
    if i < |slots| then slots[i := v] else slots + [v]
  }

  /** Slot `i` holds `v`, all other slots hold what they held, and there is one more only if `i` is a new one. */
  ghost predicate Placed(before: seq<Ref>, after: seq<Ref>, i: nat, v: Ref) {
    && i < |after| && after[i] == v && |after| == (if i < |before| then |before| else i + 1)
    && forall j :: 0 <= j < |before| && j != i ==> after[j] == before[j]
  }

  /** In `after`, object `x` has `v` in slot `i`, and nothing else has changed but colours. */
  ghost predicate StoredInto(before: map<Ref, Obj>, x: Ref, i: nat, v: Ref, after: map<Ref, Obj>)
    requires x in before
  {
    && x in after && Placed(before[x].slots, after[x].slots, i, v)
    && SameObjs(before[x := before[x].(slots := after[x].slots)], after)
  }

  lemma PutIs(slots: seq<Ref>, i: nat, v: Ref)
    requires i <= |slots|
    ensures Placed(slots, Put(slots, i, v), i, v)
  {
  }

  lemma PlacedIs(before: seq<Ref>, after: seq<Ref>, i: nat, v: Ref)
    requires Placed(before, after, i, v) && i < |before|
    ensures after == before[i := v]
  {
  }

  lemma PutPlaces(before: map<Ref, Obj>, x: Ref, i: nat, v: Ref, after: map<Ref, Obj>)
    requires x in before && i <= |before[x].slots|
    requires SameObjs(before[x := before[x].(slots := Put(before[x].slots, i, v))], after)
    ensures StoredInto(before, x, i, v, after)
  {
  }

  lemma PutStore(s: State, x: Ref, i: nat, v: Ref)
    requires Inv(s) && x in s.objs && !s.objs[x].kind.Str? && !s.objs[x].kind.OpenUpval? && i <= |s.objs[x].slots|
    requires GoodKid(s, s.objs[x].kind, v)
    ensures CanStore(s, x, Put(s.objs[x].slots, i, v))
    ensures !Plain(v) ==> v in s.objs
  {
    hide StringTable, RootList, Lively, GoodKid;
    var slots := Put(s.objs[x].slots, i, v);
    forall j | 0 <= j < |slots| ensures Unchanged(s.objs[x].slots, slots, j) || GoodKid(s, s.objs[x].kind, slots[j]) {
    }
    forall u | u in s.objs && s.objs[u].kind.OpenUpval? && s.objs[u].kind.owner == x
      ensures s.objs[u].kind.level < |slots|
    {
      OwnerThere(s, u);
    }
    assert !Plain(v) ==> v in s.objs by { KidThere(s, s.objs[x].kind, v); }
  }

  lemma KidThere(s: State, kind: Kind, v: Ref)
    requires GoodKid(s, kind, v)
    ensures !Plain(v) ==> v in s.objs
  {
  }

  lemma PutMarked(s: State, x: Ref, i: nat, v: Ref)
    requires x in s.objs && !s.objs[x].kind.Str? && !s.objs[x].kind.OpenUpval? && i <= |s.objs[x].slots|
               && KidsMarked(s, x)
    ensures forall k :: k in Kids(Stored(s, x, Put(s.objs[x].slots, i, v)), x) ==>
              Plain(k) || k == v || Marked(Stored(s, x, Put(s.objs[x].slots, i, v)), k)
  {
    var slots := Put(s.objs[x].slots, i, v);
    var s' := Stored(s, x, slots);
    assert Kids(s', x) == slots && Kids(s, x) == s.objs[x].slots;
    forall k | k in slots ensures Plain(k) || k == v || Marked(s', k) {
      if k != v { assert k in Kids(s, x); }
    }
  }

  /** What a black object may be missing after a store is the value stored. */
  lemma OnlyMissing(s: State, x: Ref, i: nat, v: Ref)
    requires Inv(s) && x in s.objs && !s.objs[x].kind.Str? && !s.objs[x].kind.OpenUpval? && i <= |s.objs[x].slots|
    requires Composite(s.objs[x].kind) || s.objs[x].kind.Udata?
    ensures var s' := Stored(s, x, Put(s.objs[x].slots, i, v));
            && (s.phase == Propagate && s.objs[x].color == Black ==>
                 forall k :: k in Kids(s', x) ==> Plain(k) || k == v || Marked(s', k))
            && (s.phase == Propagate && Marked(s', x) && s.objs[x].color != Black ==> GrayEntry(s', x))
  {
    hide Kids, Inv, Put;
    if s.phase == Propagate && s.objs[x].color == Black {
      BlackKids(s, x);
      PutMarked(s, x, i, v);
    }
    if s.phase == Propagate && Marked(s, x) && s.objs[x].kind.Udata? {
      UnlistedBlack(s, x);
    }
  }

  /** A marked userdata or closed upvalue is black. */
  lemma UnlistedBlack(s: State, x: Ref)
    requires Inv(s) && s.phase == Propagate && Marked(s, x) && (s.objs[x].kind.Udata? || s.objs[x].kind.ClosedUpval?)
    ensures s.objs[x].color == Black
  {
    hide Lively, NoneDead, Kids, StringTable, RootList;
    assert !GrayEntry(s, x);
    assert !Listed(s, x);
    assert x !in s.uvhead;
  }

  lemma NotMissing(s: State, t: Ref, i: nat, v: Ref)
    requires Inv(s) && t in s.objs && s.objs[t].kind.Table? && i <= |s.objs[t].slots|
    requires Plain(v) || (v in s.objs && !IsWhite(s.objs[v].color)) || s.objs[t].color != Black
    ensures var s' := Stored(s, t, Put(s.objs[t].slots, i, v));
            s'.phase == Propagate && Marked(s', t) ==>
                  GrayEntry(s', t) || (KidsMarked(s', t) && s'.objs[t].color == Black)
  {
    hide Inv, Kids, Put;
    OnlyMissing(s, t, i, v);
  }

  lemma ThreadGray(s: State, th: Ref, slots: seq<Ref>)
    requires Inv(s) && th in s.objs && s.objs[th].kind.Thread?
    ensures Marked(Stored(s, th, slots), th) ==> GrayEntry(Stored(s, th, slots), th)
  {
    hide StringTable, RootList, OpenLists, Lively, Swept, Clean, NoneDead, GrayLists, Tricolor;
    assert Legal(s.objs[th]);
  }

  /** An open upvalue shares its value with a stack slot; a closed one has its own. */
  function Assigned(s: State, u: Ref, v: Ref): map<Ref, Obj>
    requires u in s.objs
  {
    match s.objs[u].kind
    case OpenUpval(th, level) =>
      if th in s.objs && level < |s.objs[th].slots|
          then s.objs[th := s.objs[th].(slots := s.objs[th].slots[level := v])] else s.objs
    case _ => s.objs[u := s.objs[u].(slots := [v])]
  }

  lemma UpvalShape(s: State, u: Ref)
    requires Inv(s) && Alive(s, u) && IsUpval(s.objs[u].kind)
    ensures s.objs[u].kind.OpenUpval? ==>
              s.objs[u].kind.owner in s.objs && s.objs[s.objs[u].kind.owner].kind.Thread?
              && s.objs[u].kind.level < |s.objs[s.objs[u].kind.owner].slots|
  {
    hide StringTable, RootList, Lively;
    if s.objs[u].kind.OpenUpval? {
      OwnerThere(s, u);
    }
  }

  lemma SetClosed(s: State, u: Ref, v: Ref)
    requires Inv(s) && u in s.objs && s.objs[u].kind.ClosedUpval? && GoodKid(s, ClosedUpval, v)
    ensures InvBut(Stored(s, u, [v]), u) && (!Plain(v) ==> v in s.objs)
    ensures Kids(Stored(s, u, [v]), u) == [v]
    ensures s.phase == Propagate && Marked(s, u) ==> s.objs[u].color == Black
  {
    hide Inv, InvBut;
    NotOwner(s, u);
    StoredBut(s, u, [v]);
    if s.phase == Propagate && Marked(s, u) {
      UnlistedBlack(s, u);
    }
  }

  lemma NotOwner(s: State, x: Ref)
    requires Inv(s) && x in s.objs && !s.objs[x].kind.Thread?
    ensures OwnsNone(s, x)
  {
    hide StringTable, RootList, Lively;
    StringsOwnNothing(s, x);
  }

  lemma SameKeys(a: map<Ref, Obj>, b: map<Ref, Obj>)
    requires SameObjs(a, b)
    ensures a.Keys == b.Keys
  {
  }

  lemma ObjsKids(s: State, s': State, x: Ref)
    requires SameObjs(s.objs, s'.objs) && x in s.objs
    ensures Kids(s', x) == Kids(s, x)
  {
    if s.objs[x].kind.OpenUpval? {
      assert s.objs[x].kind.owner in s.objs <==> s.objs[x].kind.owner in s'.objs;
    }
  }

  lemma SharedSlot(s: State, u: Ref, v: Ref)
    requires u in s.objs && s.objs[u].kind.OpenUpval? && s.objs[u].kind.owner in s.objs
    requires s.objs[s.objs[u].kind.owner].kind.Thread?
    requires s.objs[u].kind.level < |s.objs[s.objs[u].kind.owner].slots|
    ensures var th := s.objs[u].kind.owner;
            Kids(Stored(s, th, Put(s.objs[th].slots, s.objs[u].kind.level, v)), u) == [v]
  {
  }

  // ---- closing upvalues

  /** The objects once the topmost open upvalue of a thread is closed: gone if it was dead, and else with its value. */
  function HeadClosed(s: State, th: Ref): map<Ref, Obj>
    requires th in s.open && s.open[th] != [] && s.open[th][0] in s.objs
  {
    var u := s.open[th][0];
    if Dead(s, u) then s.objs - {u} else s.objs[u := Obj(ClosedUpval, s.objs[u].color, s.objs[u].fixed, Kids(s, u))]
  }

  /** An upvalue was closed: unless it was dead, it still has the value it had. */
  ghost predicate ClosedOne(s: State, s': State, u: Ref) {
    && (u in s'.objs ==> s'.objs[u].kind == ClosedUpval)
    && (Alive(s, u) ==> u in s'.objs && s'.objs[u].slots == Kids(s, u))
    && (Dead(s, u) && !s.objs[u].fixed ==> u !in s'.objs)
  }

  ghost predicate FromLevel(s: State, u: Ref, level: nat) {
    u in s.objs && s.objs[u].kind.OpenUpval? && s.objs[u].kind.level >= level
  }

  ghost predicate TopClosed(s: State, s': State, q: seq<Ref>, level: nat, n: nat) {
    n <= |q| && forall i :: 0 <= i < n ==> FromLevel(s, q[i], level) && ClosedOne(s, s', q[i])
  }

  ghost predicate RestSame(s: State, s': State, q: seq<Ref>, n: nat)
    requires n <= |q|
  {
    forall x :: x in s.objs && x !in q[..n] ==> x in s'.objs && s'.objs[x] == s.objs[x].(color := s'.objs[x].color)
  }

  /** Upvalues of one thread were closed from the top, none below the level; every other object is as it was. */
  ghost predicate ClosedFrom(s: State, s': State, th: Ref, level: nat) {
    && th in s.open && th in s'.open && |s'.open[th]| <= |s.open[th]|
    && (var q, n := s.open[th], |s.open[th]| - |s'.open[th]|;
        s'.open == s.open[th := q[n..]] && TopClosed(s, s', q, level, n) && RestSame(s, s', q, n))
  }

  lemma ClosedNone(s: State, th: Ref, level: nat)
    requires th in s.open
    ensures ClosedFrom(s, s, th, level)
  {
  }

  lemma HeadIs(s: State, th: Ref)
    requires th in s.open && s.open[th] != [] && OwnedBy(s, s.open[th][0], th)
    ensures HeadClosed(s, th) == if Dead(s, s.open[th][0]) then s.objs - {s.open[th][0]} else ClosedUpvalue(s, th).objs
  {
    hide Kids;
  }

  lemma HeadOne(s: State, m: State, s': State, th: Ref)
    requires th in m.open && m.open[th] != [] && m.open[th][0] in m.objs && SameObjs(HeadClosed(m, th), s'.objs)
    requires SweptTo(s, m)
    ensures ClosedOne(s, s', m.open[th][0])
  {
    hide Kids;
  }

  lemma HeadOthers(m: State, s': State, th: Ref, x: Ref)
    requires th in m.open && m.open[th] != [] && m.open[th][0] in m.objs && SameObjs(HeadClosed(m, th), s'.objs)
    requires x != m.open[th][0]
    ensures x in s'.objs <==> x in m.objs
    ensures x in m.objs ==> s'.objs[x] == m.objs[x].(color := s'.objs[x].color)
  {
    hide Kids;
  }

  lemma TopNext(s: State, m: State, s': State, th: Ref, q: seq<Ref>, level: nat, n: nat)
    requires TopClosed(s, m, q, level, n) && RestSame(s, m, q, n) && n < |q| && Distinct(q) && SweptTo(s, m)
    requires th in m.open && m.open[th] != [] && m.open[th][0] == q[n] && FromLevel(m, q[n], level) && q[n] in s.objs
    requires SameObjs(HeadClosed(m, th), s'.objs)
    ensures TopClosed(s, s', q, level, n + 1)
  {
    hide Kids, SameObjs, HeadClosed, SweptTo, Dead, Alive;
    assert q[n] !in q[..n];
    HeadOne(s, m, s', th);
    forall i | 0 <= i < n ensures FromLevel(s, q[i], level) && ClosedOne(s, s', q[i]) {
      HeadOthers(m, s', th, q[i]);
    }
  }

  lemma RestNext(s: State, m: State, s': State, th: Ref, q: seq<Ref>, n: nat)
    requires n < |q| && RestSame(s, m, q, n)
    requires th in m.open && m.open[th] != [] && m.open[th][0] == q[n] && q[n] in m.objs
               && SameObjs(HeadClosed(m, th), s'.objs)
    ensures RestSame(s, s', q, n + 1)
  {
    hide SameObjs, HeadClosed;
    forall x | x in s.objs && x !in q[..n + 1]
      ensures x in s'.objs && s'.objs[x] == s.objs[x].(color := s'.objs[x].color)
    {
      assert q[..n + 1] == q[..n] + [q[n]];
      HeadOthers(m, s', th, x);
    }
  }

  lemma ClosedNext(s: State, m: State, s': State, th: Ref, level: nat)
    requires Inv(s) && ClosedFrom(s, m, th, level) && m.open[th] != [] && FromLevel(m, m.open[th][0], level)
    requires SweptTo(s, m) && s'.open == m.open[th := m.open[th][1..]] && SameObjs(HeadClosed(m, th), s'.objs)
    ensures ClosedFrom(s, s', th, level)
  {
    hide Inv, SameObjs, HeadClosed, SweptTo, TopClosed, RestSame;
    var q, n := s.open[th], |s.open[th]| - |m.open[th]|;
    InvDistinct(s, th);
    InvOwned(s, th, n);
    assert m.open[th] == q[n..];
    assert q[n..][1..] == q[n + 1..];
    TopNext(s, m, s', th, q, level, n);
    RestNext(s, m, s', th, q, n);
  }

  // ---- looking up an upvalue or a string

  lemma InvThread(s: State, th: Ref)
    requires Inv(s) && th in s.objs && s.objs[th].kind.Thread?
    ensures th in s.open && IsWhite(s.white)
  {
    hide StringTable, RootList, Lively;
  }

  predicate Above(s: State, th: Ref, i: nat, level: nat) {
    && th in s.open && i < |s.open[th]| && s.open[th][i] in s.objs && s.objs[s.open[th][i]].kind.OpenUpval?
    && s.objs[s.open[th][i]].kind.level > level
  }

  lemma FoundAlive(s: State, th: Ref, j: nat)
    requires Inv(s) && Alive(s, th) && th in s.open && j < |s.open[th]| && Dead(s, s.open[th][j])
    ensures var s' := Recolor(s, s.open[th][j], s.white); Inv(s') && Alive(s', s.open[th][j])
  {
    hide Structure, Lively, Inv, Swept;
    var p := s.open[th][j];
    NotDead(s, p);
    InvPlace(s);
    InvParts(s);
    FoundUpval(s, th, j);
    Revived(s, p);
    SweepingInv(Recolor(s, p, s.white));
  }

  lemma InvParts(s: State)
    requires Inv(s)
    ensures Structure(s) && Lively(s)
  {
    hide Structure, Lively;
  }

  lemma InvPlace(s: State)
    requires Inv(s)
    ensures s.phase == SweepString ==> s.sweepstrgc < |s.strt|
  {
    hide Structure, Lively, Swept, Clean;
  }

  lemma PlaceFound(s: State, th: Ref, level: nat, j: nat)
    requires Inv(s) && th in s.open && j <= |s.open[th]|
    requires forall i :: 0 <= i < j ==> Above(s, th, i, level)
    requires j < |s.open[th]| ==> s.objs[UpvalHere(s, th, j)].kind.level < level
    ensures Belongs(s, th, level, j)
  {
    hide Belongs, StringTable, RootList, Lively;
    assert OpenLists(s);
    forall i | 0 <= i < j
      ensures s.open[th][i] in s.objs && s.objs[s.open[th][i]].kind.OpenUpval?
                && s.objs[s.open[th][i]].kind.level > level
    {
      assert Above(s, th, i, level);
    }
    RestBelongs(s, th, level, j);
  }

  lemma InvTable(s: State)
    requires Inv(s)
    ensures |s.strt| > 0 && IsWhite(s.white)
  {
    hide Lively, RootList, OpenLists;
    NonemptyTable(s);
  }

  lemma BucketString(s: State, b: nat, j: nat)
    requires b < |s.strt| && j < |s.strt[b]| && InBucket(s, s.strt[b][j], b)
    ensures s.strt[b][j] in s.objs && s.objs[s.strt[b][j]].kind.Str?
  {
    hide Bucket;
  }

  lemma StringAlive(s: State, x: Ref)
    requires Inv(s) && Dead(s, x) && s.objs[x].kind.Str?
    ensures Inv(Recolor(s, x, s.white)) && Alive(Recolor(s, x, s.white), x)
  {
    hide Structure, Lively, Inv, Swept;
    NotDead(s, x);
    InvPlace(s);
    InvWhite(s);
    Revived(s, x);
    SweepingInv(Recolor(s, x, s.white));
  }

  /** One object per content: comparing addresses compares strings. */
  lemma OneString(s: State, ts: Ref)
    requires Inv(s) && ts in s.objs && s.objs[ts].kind.Str?
    ensures forall x :: x in s.objs && s.objs[x].kind == s.objs[ts].kind ==> x == ts
  {
    hide Bucket, Lively, RootList, OpenLists;
    assert StringTable(s);
  }

  lemma NotInTable(s: State, text: seq<bv8>)
    requires Inv(s) && |s.strt| > 0
    requires var b := Bucket(text, |s.strt|);
             forall i :: 0 <= i < |s.strt[b]| ==> s.strt[b][i] in s.objs && s.objs[s.strt[b][i]].kind != Str(text)
    ensures NoString(s, text)
  {
    hide Bucket, Inv, StringTable;
    InvStrings(s);
    NotInBucket(s, text);
  }

  lemma InvDouble(s: State)
    requires Inv(s)
    ensures PowerOfTwo(|s.strt| * 2)
  {
    hide Inv;
    TableSize(s);
  }

  lemma TableSize(s: State)
    requires Inv(s)
    ensures |s.strt| > 0 && PowerOfTwo(|s.strt|)
  {
    hide Bucket, Lively, RootList, OpenLists, PowerOfTwo, Tricolor, GrayLists, Swept, Clean, NoneDead;
  }

  lemma InvRootTables(s: State)
    requires Inv(s)
    ensures Alive(s, s.running) && s.objs[s.running].kind.Thread?
    ensures forall x :: x in s.mt ==> Alive(s, x) && s.objs[x].kind.Table?
  {
    hide Structure;
  }

  // ---- fixing a string for good

  function Fixed(s: State, x: Ref): State
    requires x in s.objs
  {
    s.(objs := s.objs[x := s.objs[x].(fixed := true)])
  }

  lemma FixedKids(s: State, x: Ref, y: Ref)
    requires x in s.objs && y in s.objs
    ensures Kids(Fixed(s, x), y) == Kids(s, y)
  {
  }

  lemma FixedLively(s: State, x: Ref)
    requires Structure(s) && Lively(s) && x in s.objs && s.objs[x].kind.Str?
    ensures Structure(Fixed(s, x)) && Lively(Fixed(s, x))
  {
    hide Bucket, StringTable, RootList, OpenLists, Kids;
    var s' := Fixed(s, x);
    FrameRoot(s, s');
    FrameStrings(s, s');
    FrameOpen(s, s');
    assert Legal(s.objs[x]);
    forall y | Alive(s', y) ensures GoodKids(s', y) {
      FixedKids(s, x, y);
      LivelyKids(s, y);
      forall k | k in Kids(s', y) ensures GoodKid(s', s'.objs[y].kind, k) {
        assert GoodKid(s, s.objs[y].kind, k);
      }
    }
  }

  lemma FixedMarking(s: State, x: Ref)
    requires x in s.objs && s.objs[x].kind.Str?
    requires NoneDead(s) && GrayLists(s) && Tricolor(s, Again(s) + OpenUpvals(s))
    ensures var s' := Fixed(s, x);
            && NoneDead(s') && GrayLists(s') && Tricolor(s', Again(s') + OpenUpvals(s'))
            && forall y :: Marked(s, y) ==> Marked(s', y)
  {
    hide Kids;
    var s' := Fixed(s, x);
    forall y | y in s.objs ensures Kids(s', y) == Kids(s, y) {
      FixedKids(s, x, y);
    }
    assert forall y :: Marked(s', y) <==> Marked(s, y);
    assert forall y :: GrayEntry(s', y) <==> GrayEntry(s, y);
    assert forall y :: Listed(s', y) <==> Listed(s, y);
  }

  lemma FixedInv(s: State, x: Ref)
    requires Inv(s) && x in s.objs && s.objs[x].kind.Str?
    ensures Inv(Fixed(s, x))
  {
    hide Bucket, StringTable, RootList, OpenLists, Kids, Lively, NoneDead, GrayLists, Tricolor, Swept;
    FixedLively(s, x);
    match s.phase
    case Pause =>
    case Finalize =>
    case Propagate => FixedMarking(s, x);
    case SweepString => FixedSwept(s, x);
    case Sweep => FixedSwept(s, x);
  }

  lemma FixedSwept(s: State, x: Ref)
    requires Swept(s) && x in s.objs
    ensures Swept(Fixed(s, x))
  {
    hide Bucket;
    var s' := Fixed(s, x);
    forall y | y in s'.objs ensures s'.objs[y].color == s'.white || Ahead(s', y) {
      assert s.objs[y].color == s.white || Ahead(s, y);
    }
  }
}
