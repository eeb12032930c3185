/** Sweeping: what freeing, whitening and closing one object keeps. */
module GcSweep {
  import opened GcState
  import opened GcMark
  import opened Numbers

  function RemoveAt<T>(q: seq<T>, j: nat): seq<T>
    requires j < |q|
  {
    q[..j] + q[j + 1..]
  }

  /** The list with one object unlinked. */
  function Without(q: seq<Ref>, x: Ref): seq<Ref> {
    if q == [] then [] else if q[0] == x then q[1..] else [q[0]] + Without(q[1..], x)
  }

  lemma RemovedOnce<T>(q: seq<T>, j: nat)
    requires Distinct(q) && j < |q|
    ensures Distinct(RemoveAt(q, j))
    ensures forall y :: y in RemoveAt(q, j) <==> y in q && y != q[j]
  {
    var r := RemoveAt(q, j);
    assert forall i :: 0 <= i < |r| ==> r[i] == if i < j then q[i] else q[i + 1];
    forall y | y in q && y != q[j] ensures y in r {
      var i :| 0 <= i < |q| && q[i] == y;
      assert r[if i < j then i else i - 1] == y;
    }
  }

  lemma TailDistinct(q: seq<Ref>)
    requires Distinct(q) && q != []
    ensures Distinct(q[1..]) && q[0] !in q[1..]
    ensures forall y :: y in q <==> y == q[0] || y in q[1..]
  {
    assert q == [q[0]] + q[1..];
    assert forall i :: 0 <= i < |q[1..]| ==> q[1..][i] == q[i + 1];
  }

  lemma HeadDistinct(x: Ref, r: seq<Ref>)
    requires Distinct(r) && x !in r
    ensures Distinct([x] + r)
    ensures forall y :: y in [x] + r <==> y == x || y in r
  {
    var q := [x] + r;
    assert forall i :: 0 <= i < |r| ==> q[i + 1] == r[i];
    forall i, j | 0 <= i < j < |q| ensures q[i] != q[j] {
      assert q[j] == r[j - 1];
      assert i > 0 ==> q[i] == r[i - 1];
    }
  }

  lemma {:induction false} WithoutOnce(q: seq<Ref>, x: Ref)
    requires Distinct(q)
    ensures Distinct(Without(q, x))
    ensures forall y :: y in Without(q, x) <==> y in q && y != x
  {
    hide Distinct;
    if q != [] {
      TailDistinct(q);
      if q[0] != x {
        WithoutOnce(q[1..], x);
        HeadDistinct(q[0], Without(q[1..], x));
      }
    } else {
      assert Without(q, x) == q;
    }
  }

  // ---- what changes elsewhere leaves the lists right

  predicate SameAs(s: State, s': State, x: Ref) {
    x in s.objs && x in s'.objs && s'.objs[x].kind == s.objs[x].kind && s'.objs[x].slots == s.objs[x].slots
  }

  lemma FrameRoot(s: State, s': State)
    requires RootList(s) && s'.rootgc == s.rootgc
    requires forall x :: x in s.objs && OnRoot(s.objs[x].kind) ==> x in s'.objs && OnRoot(s'.objs[x].kind)
    requires forall x :: x in s'.objs && OnRoot(s'.objs[x].kind) ==> x in s.objs && OnRoot(s.objs[x].kind)
    ensures RootList(s')
  {
  }

  lemma FrameStrings(s: State, s': State)
    requires StringTable(s) && s'.strt == s.strt && s'.nuse == s.nuse
    requires forall x :: x in s.objs && s.objs[x].kind.Str? ==> SameAs(s, s', x)
    requires forall x :: x in s'.objs && s'.objs[x].kind.Str? ==> SameAs(s, s', x)
    ensures StringTable(s')
  {
    hide Bucket, PowerOfTwo, Chained;
    forall b, x | 0 <= b < |s.strt| && x in s.strt[b] ensures InBucket(s', x, b) {
      assert InBucket(s, x, b);
    }
  }

  lemma FrameOpen(s: State, s': State)
    requires OpenLists(s) && s'.open == s.open && s'.uvhead == s.uvhead
    requires forall x :: x in s.objs && (s.objs[x].kind.Thread? || s.objs[x].kind.OpenUpval?) ==> SameAs(s, s', x)
    requires forall x :: x in s'.objs && (s'.objs[x].kind.Thread? || s'.objs[x].kind.OpenUpval?) ==> SameAs(s, s', x)
    ensures OpenLists(s')
  {
    forall th, x | th in s.open && x in s.open[th] ensures OwnedBy(s', x, th) {
      assert OwnedBy(s, x, th);
    }
    forall th | th in s.open ensures Descending(s', s.open[th]) {
      forall x | x in s.open[th] ensures SameAs(s, s', x) {
        assert OwnedBy(s, x, th);
      }
      DescendingSame(s, s', s.open[th]);
    }
  }

  predicate SameRoots(s: State, s': State) {
    && s'.white == s.white && s'.mainthread == s.mainthread && s'.running == s.running
    && s'.registry == s.registry && s'.mt == s.mt
  }

  /** No thread whose open upvalues are in the heap is `x`. */
  ghost predicate OwnsNone(s: State, x: Ref) {
    forall u :: u in s.objs && s.objs[u].kind.OpenUpval? ==> s.objs[u].kind.owner != x
  }

  lemma FreedKids(s: State, s': State, x: Ref, y: Ref)
    requires s'.objs == s.objs - {x} && OwnsNone(s, x) && y in s'.objs
    ensures Kids(s', y) == Kids(s, y) && s'.objs[y] == s.objs[y]
  {
  }

  /** Freeing something dead leaves everything else as it was. */
  lemma FreedLively(s: State, s': State, x: Ref)
    requires Lively(s) && s'.objs == s.objs - {x} && SameRoots(s, s') && OwnsNone(s, x) && !Alive(s, x)
    ensures Lively(s')
    ensures forall y :: Alive(s, y) <==> Alive(s', y)
  {
    hide Kids;
    forall y ensures Alive(s, y) <==> Alive(s', y) {
    }
    forall y | Alive(s', y) ensures GoodKids(s', y) {
      FreedKids(s, s', x, y);
      assert Alive(s, y) && GoodKids(s, y);
      forall k | k in Kids(s', y) ensures GoodKid(s', s'.objs[y].kind, k) {
        assert GoodKid(s, s.objs[y].kind, k);
      }
    }
  }

  /** Any change of colours that keeps the living alive, and revives only what refers to the living. */
  lemma RecoloredLively(s: State, s': State)
    requires Structure(s) && Lively(s) && SameHeap(s, s')
    requires forall x :: x in s'.objs ==> Legal(s'.objs[x])
    requires forall x :: Alive(s, x) ==> Alive(s', x)
    requires forall x :: Alive(s', x) ==> GoodKids(s, x)
    ensures Structure(s') && Lively(s')
  {
    hide StringTable, RootList, OpenLists, Kids;
    SameStructure(s, s');
    forall x | Alive(s', x) ensures GoodKids(s', x) {
      SameKids(s, s', x);
      assert SameObj(s, s', x);
      forall k | k in Kids(s', x) ensures GoodKid(s', s'.objs[x].kind, k) {
        assert GoodKid(s, s.objs[x].kind, k);
        assert !Plain(k) ==> SameObj(s, s', k);
      }
    }
    forall x | x in s.objs ensures s'.objs[x].kind == s.objs[x].kind {
      assert SameObj(s, s', x);
    }
  }

  // ---- one step of a sweep

  ghost predicate Sweeping(s: State) {
    Structure(s) && Lively(s) && Swept(s) && ((s.phase == SweepString && s.sweepgc == 0) || s.phase == Sweep)
  }

  /** Only strings are fixed. */
  lemma SweepingLegal(s: State, x: Ref)
    requires Sweeping(s) && x in s.objs
    ensures IsWhite(s.white) && (s.objs[x].fixed ==> s.objs[x].kind.Str?)
  {
    hide RootList, StringTable, OpenLists, Lively, Swept;
  }

  lemma SweepingInv(s: State)
    requires s.phase == SweepString || s.phase == Sweep
    ensures Inv(s) <==> Sweeping(s) && (s.phase == SweepString ==> s.sweepstrgc < |s.strt|)
  {
    hide Structure, Lively, Swept;
  }

  /** Sweeping frees nothing alive or fixed, changes no reference, and revives only fixed strings. */
  ghost predicate SweptTo(s: State, s': State) {
    && SameRoots(s, s')
    && (forall x :: x in s'.objs ==> x in s.objs && s'.objs[x].fixed == s.objs[x].fixed)
    && (forall x :: x in s.objs && s.objs[x].fixed ==> x in s'.objs)
    && (forall x :: Alive(s, x) ==> Alive(s', x) && Kids(s', x) == Kids(s, x))
    && (forall x :: Alive(s', x) ==> Alive(s, x) || s'.objs[x].fixed)
  }

  lemma SweptSelf(s: State)
    ensures SweptTo(s, s)
  {
  }

  lemma SweptTrans(a: State, b: State, c: State)
    requires SweptTo(a, b) && SweptTo(b, c)
    ensures SweptTo(a, c)
  {
    hide Kids;
  }

  lemma WhitenedSwept(s: State, x: Ref)
    requires Swept(s) && x in s.objs
    ensures Swept(Recolor(s, x, s.white))
  {
    var s' := Recolor(s, x, s.white);
    forall y | y in s'.objs ensures s'.objs[y].color == s.white || Ahead(s', y) {
      if y != x && s.objs[y].color != s.white {
        assert Ahead(s, y);
        if s.objs[y].kind.OpenUpval? {
          assert AheadOnRoot(s, s.objs[y].kind.owner) == AheadOnRoot(s', s.objs[y].kind.owner);
        } else if !s.objs[y].kind.Str? {
          assert AheadOnRoot(s, y) == AheadOnRoot(s', y);
        }
      }
    }
  }

  /** Turning an object white, even a dead one that refers to living objects only. */
  lemma Revived(s: State, x: Ref)
    requires Sweeping(s) && x in s.objs && GoodKids(s, x)
    ensures Sweeping(Recolor(s, x, s.white)) && SameHeap(s, Recolor(s, x, s.white))
    ensures forall y :: Alive(Recolor(s, x, s.white), y) <==> Alive(s, y) || y == x
    ensures forall y :: y in s.objs ==> Kids(Recolor(s, x, s.white), y) == Kids(s, y)
  {
    hide StringTable, RootList, OpenLists, Swept, Kids;
    var s' := Recolor(s, x, s.white);
    assert SameHeap(s, s');
    assert Legal(s.objs[x]) && IsWhite(s.white);
    RecoloredLively(s, s');
    WhitenedSwept(s, x);
    forall y | y in s.objs ensures Kids(s', y) == Kids(s, y) {
      SameKids(s, s', y);
    }
  }

  /** An object that stays turns white for the next cycle. */
  lemma Whitened(s: State, x: Ref)
    requires Sweeping(s) && x in s.objs && (Alive(s, x) || s.objs[x].fixed)
    ensures Sweeping(Recolor(s, x, s.white)) && SweptTo(s, Recolor(s, x, s.white))
  {
    hide StringTable, RootList, OpenLists, Swept, SameHeap;
    assert Legal(s.objs[x]);
    Revived(s, x);
  }

  lemma {:induction false} ChainedUpdate(strt: seq<seq<Ref>>, b: nat, list: seq<Ref>)
    requires b < |strt|
    ensures Chained(strt[b := list]) == Chained(strt) - |strt[b]| + |list|
    decreases |strt|
  {
    var n := |strt| - 1;
    if b < n {
      assert strt[b := list][..n] == strt[..n][b := list];
      ChainedUpdate(strt[..n], b, list);
    } else {
      assert strt[b := list][..n] == strt[..n];
    }
  }

  lemma FreedStrings(s: State, b: nat, j: nat)
    requires StringTable(s) && b < |s.strt| && j < |s.strt[b]|
    ensures StringTable(s.(objs := s.objs - {s.strt[b][j]}, strt := s.strt[b := RemoveAt(s.strt[b], j)],
              nuse := s.nuse - 1))
  {
    hide Bucket, PowerOfTwo, RemoveAt;
    var x := s.strt[b][j];
    var s' := s.(objs := s.objs - {x}, strt := s.strt[b := RemoveAt(s.strt[b], j)], nuse := s.nuse - 1);
    RemovedOnce(s.strt[b], j);
    RemovedSize(s.strt[b], j);
    ChainedUpdate(s.strt, b, RemoveAt(s.strt[b], j));
    assert InBucket(s, x, b);
    forall c, y | 0 <= c < |s'.strt| && y in s'.strt[c] ensures InBucket(s', y, c) {
      assert y in s.strt[c];
      assert InBucket(s, y, c);
    }
  }

  lemma RemovedSize<T>(q: seq<T>, j: nat)
    requires j < |q|
    ensures |RemoveAt(q, j)| == |q| - 1
  {
  }

  lemma StringsOwnNothing(s: State, x: Ref)
    requires OpenLists(s) && x in s.objs && !s.objs[x].kind.Thread?
    ensures OwnsNone(s, x)
  {
  }

  /** A dead string is unchained and freed. */
  lemma FreeString(s: State, b: nat, j: nat)
    requires Sweeping(s) && b < |s.strt| && j < |s.strt[b]|
    requires Dead(s, s.strt[b][j]) && !s.objs[s.strt[b][j]].fixed
    ensures var s' := s.(objs := s.objs - {s.strt[b][j]}, strt := s.strt[b := RemoveAt(s.strt[b], j)],
              nuse := s.nuse - 1);
            Sweeping(s') && SweptTo(s, s')
  {
    hide Bucket, StringTable, RootList, OpenLists, RemoveAt, Lively;
    var x := s.strt[b][j];
    var s' := s.(objs := s.objs - {x}, strt := s.strt[b := RemoveAt(s.strt[b], j)], nuse := s.nuse - 1);
    assert InBucket(s, x, b) by { BucketOf(s, b, j); }
    FreedStrings(s, b, j);
    FrameRoot(s, s');
    FrameOpen(s, s');
    StringsOwnNothing(s, x);
    FreedLively(s, s', x);
    forall y | y in s'.objs ensures Kids(s', y) == Kids(s, y) && (s'.objs[y].color == s.white || Ahead(s', y)) {
      FreedKids(s, s', x, y);
      assert s.objs[y].color == s.white || Ahead(s, y);
    }
  }

  lemma BucketOf(s: State, b: nat, j: nat)
    requires StringTable(s) && b < |s.strt| && j < |s.strt[b]|
    ensures InBucket(s, s.strt[b][j], b)
  {
    hide Bucket;
  }

  // ---- sweeping the main list

  lemma FreedRoot(s: State, j: nat)
    requires RootList(s) && j < |s.rootgc|
    ensures RootList(s.(objs := s.objs - {s.rootgc[j]}, rootgc := RemoveAt(s.rootgc, j)))
  {
    RemovedOnce(s.rootgc, j);
  }

  lemma RemovedRest<T>(q: seq<T>, from: nat, j: nat)
    requires from <= j < |q|
    ensures |RemoveAt(q, j)| == |q| - 1
    ensures forall y :: y in q[from..] && y != q[j] ==> y in RemoveAt(q, j)[from..]
  {
    assert q[from..] == q[from..j] + [q[j]] + q[j + 1..];
    assert RemoveAt(q, j)[from..] == q[from..j] + q[j + 1..];
  }

  lemma FreedOpen(s: State, x: Ref)
    requires OpenLists(s) && OwnsNone(s, x) && x in s.objs && !s.objs[x].kind.OpenUpval?
    ensures OpenLists(s.(objs := s.objs - {x}, open := s.open - {x}))
  {
    var s' := s.(objs := s.objs - {x}, open := s.open - {x});
    forall th, u | th in s'.open && u in s'.open[th] ensures OwnedBy(s', u, th) {
      assert OwnedBy(s, u, th);
    }
    forall th | th in s'.open ensures Descending(s', s'.open[th]) {
      assert Descending(s, s.open[th]);
    }
  }

  /** A dead object the sweep has not passed is freed. */
  function FreedObject(s: State, j: nat): State
    requires j < |s.rootgc|
  {
    s.(objs := s.objs - {s.rootgc[j]}, rootgc := RemoveAt(s.rootgc, j), open := s.open - {s.rootgc[j]})
  }

  lemma FreeRoot(s: State, j: nat)
    requires Sweeping(s) && s.phase == Sweep && s.sweepgc <= j < |s.rootgc|
    requires Dead(s, s.rootgc[j]) && OwnsNone(s, s.rootgc[j])
    ensures Sweeping(FreedObject(s, j)) && SweptTo(s, FreedObject(s, j))
    ensures |FreedObject(s, j).rootgc| == |s.rootgc| - 1
  {
    hide Bucket, StringTable, RootList, OpenLists, RemoveAt, Lively;
    var x := s.rootgc[j];
    var s' := FreedObject(s, j);
    OnRootList(s, x);
    FrameStrings(s, s');
    FreedRoot(s, j);
    RootList2(s', s.(objs := s.objs - {x}, rootgc := RemoveAt(s.rootgc, j)));
    FreedOpen(s, x);
    OpenLists2(s', s.(objs := s.objs - {x}, open := s.open - {x}));
    RemovedRest(s.rootgc, s.sweepgc, j);
    FreedLively(s, s', x);
    assert Legal(s.objs[x]);
    forall y | y in s'.objs ensures Kids(s', y) == Kids(s, y) && (s'.objs[y].color == s.white || Ahead(s', y)) {
      FreedKids(s, s', x, y);
      assert s.objs[y].color == s.white || Ahead(s, y);
    }
  }

  lemma RootList2(s: State, t: State)
    requires RootList(t) && s.objs == t.objs && s.rootgc == t.rootgc
    ensures RootList(s)
  {
  }

  lemma OpenLists2(s: State, t: State)
    requires OpenLists(t) && s.objs == t.objs && s.open == t.open && s.uvhead == t.uvhead
    ensures OpenLists(s)
  {
    FrameOpen(t, s);
  }

  lemma OnRootList(s: State, x: Ref)
    requires RootList(s) && x in s.rootgc
    ensures x in s.objs && OnRoot(s.objs[x].kind)
  {
  }

  /** The sweep has passed the object: it is white, and so are the open upvalues it owns. */
  lemma Passed(s: State)
    requires Sweeping(s) && s.phase == Sweep && s.sweepgc < |s.rootgc|
    requires s.rootgc[s.sweepgc] in s.objs && s.objs[s.rootgc[s.sweepgc]].color == s.white
    requires forall u :: u in s.objs && s.objs[u].kind.OpenUpval? && s.objs[u].kind.owner == s.rootgc[s.sweepgc] ==>
               s.objs[u].color == s.white
    ensures Sweeping(s.(sweepgc := s.sweepgc + 1)) && SweptTo(s, s.(sweepgc := s.sweepgc + 1))
  {
    hide Bucket, StringTable, RootList, OpenLists, Lively;
    var s' := s.(sweepgc := s.sweepgc + 1);
    SameLively(s, s');
    SameEdges(s, s');
    assert s.rootgc[s.sweepgc..] == [s.rootgc[s.sweepgc]] + s.rootgc[s.sweepgc + 1..];
    forall y | y in s'.objs ensures s'.objs[y].color == s.white || Ahead(s', y) {
      assert s.objs[y].color == s.white || Ahead(s, y);
    }
  }

  /** One bucket of strings is white: the sweep goes on to the next. */
  lemma BucketPassed(s: State)
    requires Sweeping(s) && s.phase == SweepString && s.sweepstrgc < |s.strt|
    requires forall x :: x in s.strt[s.sweepstrgc] ==> x in s.objs && s.objs[x].color == s.white
    ensures var s' := s.(sweepstrgc := s.sweepstrgc + 1); Sweeping(s') && SweptTo(s, s')
  {
    hide Bucket, StringTable, RootList, OpenLists, Lively;
    var s' := s.(sweepstrgc := s.sweepstrgc + 1);
    SameLively(s, s');
    SameEdges(s, s');
    forall y | y in s'.objs ensures s'.objs[y].color == s.white || Ahead(s', y) {
      assert s.objs[y].color == s.white || Ahead(s, y);
      if s.objs[y].kind.Str? && s.objs[y].color != s.white {
        InItsBucket(s, y);
      } else if s.objs[y].kind.OpenUpval? {
        assert AheadOnRoot(s', s.objs[y].kind.owner);
      }
    }
  }

  lemma InItsBucket(s: State, x: Ref)
    requires StringTable(s) && x in s.objs && s.objs[x].kind.Str?
    ensures |s.strt| > 0 && x in s.strt[Bucket(s.objs[x].kind.text, |s.strt|)]
  {
    hide Bucket;
  }

  /** All strings are swept: the sweep goes on to the other objects. */
  lemma StringsDone(s: State)
    requires Sweeping(s) && s.phase == SweepString && s.sweepstrgc >= |s.strt|
    ensures var s' := s.(phase := Sweep); Sweeping(s') && SweptTo(s, s')
  {
    hide Bucket, StringTable, OpenLists, Lively;
    var s' := s.(phase := Sweep);
    SameLively(s, s');
    SameEdges(s, s');
    forall y | y in s'.objs ensures s'.objs[y].color == s.white || Ahead(s', y) {
      assert s.objs[y].color == s.white || Ahead(s, y);
      if OnRoot(s.objs[y].kind) {
        assert s.rootgc[0..] == s.rootgc;
      } else if s.objs[y].kind.OpenUpval? {
        OwnerThere(s, y);
        assert s.rootgc[0..] == s.rootgc;
      }
    }
  }

  lemma OwnerThere(s: State, u: Ref)
    requires OpenLists(s) && u in s.objs && s.objs[u].kind.OpenUpval?
    ensures s.objs[u].kind.owner in s.objs && s.objs[s.objs[u].kind.owner].kind.Thread?
    ensures s.objs[u].kind.level < |s.objs[s.objs[u].kind.owner].slots|
    ensures s.objs[u].kind.owner in s.open && u in s.open[s.objs[u].kind.owner]
  {
    assert OwnedBy(s, u, s.objs[u].kind.owner);
  }

  /** Everything is swept: the heap is clean. */
  lemma SweepDone(s: State)
    requires Sweeping(s) && s.phase == Sweep && s.sweepgc >= |s.rootgc|
    ensures Structure(s) && Lively(s) && Clean(s)
  {
    hide Bucket, StringTable, RootList, OpenLists, Lively;
    forall y | y in s.objs ensures s.objs[y].color == s.white {
      assert s.objs[y].color == s.white || Ahead(s, y);
    }
  }

  // ---- open upvalues of a thread

  /** An open upvalue is unlinked from both lists and freed. */
  function FreedUpval(s: State, th: Ref, j: nat): State
    requires th in s.open && j < |s.open[th]|
  {
    var x := s.open[th][j];
    s.(objs := s.objs - {x}, open := s.open[th := RemoveAt(s.open[th], j)], uvhead := Without(s.uvhead, x))
  }

  lemma FreedUpvalOpen(s: State, th: Ref, j: nat)
    requires OpenLists(s) && th in s.open && j < |s.open[th]|
    ensures OpenLists(FreedUpval(s, th, j))
  {
    hide RemoveAt;
    var x := s.open[th][j];
    var s' := FreedUpval(s, th, j);
    assert OwnedBy(s, x, th);
    DescendingDistinct(s, s.open[th], th);
    RemovedOnce(s.open[th], j);
    WithoutOnce(s.uvhead, x);
    forall t, u | t in s'.open && u in s'.open[t] ensures OwnedBy(s', u, t) {
      assert OwnedBy(s, u, t);
    }
    forall t | t in s'.open ensures Descending(s', s'.open[t]) {
      if t == th {
        DescendingRemoved(s, s.open[th], j);
        DescendingSame(s, s', s'.open[th]);
      } else {
        DescendingSame(s, s', s.open[t]);
      }
    }
  }

  lemma DescendingDistinct(s: State, list: seq<Ref>, th: Ref)
    requires Descending(s, list) && forall x :: x in list ==> OwnedBy(s, x, th)
    ensures Distinct(list)
  {
    forall i, j | 0 <= i < j < |list| ensures list[i] != list[j] {
      assert OwnedBy(s, list[i], th) && OwnedBy(s, list[j], th);
    }
  }

  lemma DescendingRemoved(s: State, list: seq<Ref>, j: nat)
    requires Descending(s, list) && j < |list|
    ensures Descending(s, RemoveAt(list, j))
  {
    var r := RemoveAt(list, j);
    assert forall i :: 0 <= i < |r| ==> r[i] == list[if i < j then i else i + 1];
  }

  lemma DescendingSame(s: State, s': State, list: seq<Ref>)
    requires Descending(s, list)
    requires forall x :: x in list && x in s'.objs && s'.objs[x].kind.OpenUpval? ==> SameAs(s, s', x)
    ensures Descending(s', list)
  {
    forall i, j | 0 <= i < j < |list| ensures Higher(s', list[i], list[j]) {
      var x, y := list[i], list[j];
      assert x in list && y in list && Higher(s, x, y);
    }
  }

  lemma UpvalOwnsNone(s: State, x: Ref)
    requires OpenLists(s) && x in s.objs && !s.objs[x].kind.Thread?
    ensures OwnsNone(s, x)
  {
    StringsOwnNothing(s, x);
  }

  /** A dead open upvalue is freed, whether by the sweep or when its level is closed. */
  lemma FreeUpval(s: State, th: Ref, j: nat)
    requires Inv(s) && th in s.open && j < |s.open[th]| && Dead(s, s.open[th][j])
    ensures var s' := FreedUpval(s, th, j); Inv(s') && Sweeping(s') && Sweeping(s) && SweptTo(s, s')
  {
    hide Bucket, StringTable, RootList, OpenLists, RemoveAt, Lively, Without, NoneDead, Tricolor, GrayLists;
    var x := s.open[th][j];
    var s' := FreedUpval(s, th, j);
    NotDead(s, x);
    ListedUpval(s, th, j);
    FrameStrings(s, s');
    FrameRoot(s, s');
    FreedUpvalOpen(s, th, j);
    UpvalOwnsNone(s, x);
    FreedLively(s, s', x);
    assert Legal(s.objs[x]);
    forall y | y in s'.objs ensures Kids(s', y) == Kids(s, y) && (s'.objs[y].color == s.white || Ahead(s', y)) {
      FreedKids(s, s', x, y);
      assert s.objs[y].color == s.white || Ahead(s, y);
    }
  }

  lemma ListedUpval(s: State, th: Ref, j: nat)
    requires OpenLists(s) && th in s.open && j < |s.open[th]|
    ensures OwnedBy(s, s.open[th][j], th) && s.objs[s.open[th][j]].kind.OpenUpval?
  {
  }

  /** Only a sweep meets dead objects. */
  lemma NotDead(s: State, x: Ref)
    requires Inv(s) && Dead(s, x)
    ensures Sweeping(s)
  {
    hide Structure, Lively, GrayLists, Tricolor;
    assert IsWhite(s.white) by { InvWhite(s); }
  }

  lemma InvWhite(s: State)
    requires Inv(s)
    ensures IsWhite(s.white)
  {
    hide RootList, StringTable, OpenLists, Lively;
  }

  /** An open upvalue becomes closed: it takes its value along and moves to the main list. */
  function ClosedUpvalue(s: State, th: Ref): State
    requires th in s.open && s.open[th] != [] && s.open[th][0] in s.objs && s.objs[s.open[th][0]].kind.OpenUpval?
  {
    var x := s.open[th][0];
    var o := s.objs[x];
    s.(objs := s.objs[x := Obj(ClosedUpval, o.color, o.fixed, Kids(s, x))],
       open := s.open[th := s.open[th][1..]], uvhead := Without(s.uvhead, x),
       rootgc := [x] + s.rootgc, sweepgc := if s.sweepgc > 0 then s.sweepgc + 1 else 0)
  }

  lemma ClosedOwned(s: State, th: Ref, t: Ref, u: Ref)
    requires OpenLists(s) && th in s.open && s.open[th] != [] && OwnedBy(s, s.open[th][0], th)
    requires var s' := ClosedUpvalue(s, th); t in s'.open && u in s'.open[t]
    ensures OwnedBy(ClosedUpvalue(s, th), u, t)
  {
    hide Kids, Descending;
    DescendingOnce(s, th);
    RemovedOnce(s.open[th], 0);
    assert RemoveAt(s.open[th], 0) == s.open[th][1..];
    assert OwnedBy(s, u, t);
  }

  lemma DescendingOnce(s: State, th: Ref)
    requires OpenLists(s) && th in s.open
    ensures Distinct(s.open[th])
  {
    DescendingDistinct(s, s.open[th], th);
  }

  lemma ClosedDescending(s: State, th: Ref, t: Ref)
    requires OpenLists(s) && th in s.open && s.open[th] != [] && OwnedBy(s, s.open[th][0], th)
    requires t in ClosedUpvalue(s, th).open
    ensures var s' := ClosedUpvalue(s, th); Descending(s', s'.open[t])
  {
    hide Kids;
    var s' := ClosedUpvalue(s, th);
    if t == th {
      assert RemoveAt(s.open[th], 0) == s.open[th][1..];
      DescendingRemoved(s, s.open[th], 0);
      DescendingSame(s, s', s'.open[th]);
    } else {
      DescendingSame(s, s', s.open[t]);
    }
  }

  lemma ClosedOpen(s: State, th: Ref)
    requires OpenLists(s) && th in s.open && s.open[th] != [] && OwnedBy(s, s.open[th][0], th)
    ensures OpenLists(ClosedUpvalue(s, th))
  {
    hide Kids, Descending;
    var x := s.open[th][0];
    var s' := ClosedUpvalue(s, th);
    WithoutOnce(s.uvhead, x);
    forall t, u | t in s'.open && u in s'.open[t] ensures OwnedBy(s', u, t) {
      ClosedOwned(s, th, t, u);
    }
    forall t | t in s'.open ensures Descending(s', s'.open[t]) {
      ClosedDescending(s, th, t);
    }
  }

  lemma ClosedRoot(s: State, th: Ref)
    requires RootList(s) && th in s.open && s.open[th] != [] && OwnedBy(s, s.open[th][0], th)
    ensures RootList(ClosedUpvalue(s, th))
  {
    hide Kids;
    var x := s.open[th][0];
    var s' := ClosedUpvalue(s, th);
    assert x !in s.rootgc;
    assert forall i :: 0 < i < |s'.rootgc| ==> s'.rootgc[i] == s.rootgc[i - 1];
  }

  lemma ClosedKids(s: State, th: Ref, y: Ref)
    requires th in s.open && s.open[th] != [] && OwnedBy(s, s.open[th][0], th) && y in s.objs
    requires th in s.objs && s.objs[th].kind.Thread? && OwnsNone(s, s.open[th][0])
    ensures Kids(ClosedUpvalue(s, th), y) == Kids(s, y)
  {
  }

  /** Closing changes neither what is alive nor what anything refers to. */
  lemma ClosedLively(s: State, th: Ref)
    requires Structure(s) && Lively(s) && th in s.open && s.open[th] != [] && OwnedBy(s, s.open[th][0], th)
    ensures var s' := ClosedUpvalue(s, th);
            Structure(s') && Lively(s') && SameRoots(s, s') && s'.objs.Keys == s.objs.Keys
    ensures forall y :: y in s.objs ==> Kids(ClosedUpvalue(s, th), y) == Kids(s, y)
  {
    hide Bucket, StringTable, RootList, OpenLists, Kids, Without;
    var x := s.open[th][0];
    var s' := ClosedUpvalue(s, th);
    FrameStrings(s, s');
    ClosedRoot(s, th);
    ClosedOpen(s, th);
    ThreadOpen(s, th);
    UpvalOwnsNone(s, x);
    forall y | y in s.objs ensures Kids(s', y) == Kids(s, y) {
      ClosedKids(s, th, y);
    }
    forall y | Alive(s', y) ensures GoodKids(s', y) {
      assert Alive(s, y) && GoodKids(s, y);
      forall k | k in Kids(s', y) ensures GoodKid(s', s'.objs[y].kind, k) {
        assert GoodKid(s, s.objs[y].kind, k);
      }
    }
    assert Legal(s.objs[x]);
  }

  lemma ThreadOpen(s: State, th: Ref)
    requires OpenLists(s) && th in s.open
    ensures th in s.objs && s.objs[th].kind.Thread?
  {
  }

  lemma {:induction false} WithoutSize(q: seq<Ref>, x: Ref)
    requires x in q
    ensures |Without(q, x)| == |q| - 1
  {
    if q[0] != x {
      WithoutSize(q[1..], x);
    }
  }

  /** Marking is no less careful: nothing is freed and nothing dies. */
  lemma GrewSwept(s: State, s': State)
    requires Grew(s, s') && IsWhite(s.white) && forall x :: x in s.objs ==> !Dead(s, x)
    ensures SweptTo(s, s')
  {
    hide Kids;
    forall x | x in s.objs ensures Alive(s', x) && Kids(s', x) == Kids(s, x) && s'.objs[x].fixed == s.objs[x].fixed {
      assert SameObj(s, s', x);
      SameKids(s, s', x);
    }
  }

  // ---- what a collector step keeps

  /** Everything alive is still there and refers to the same objects; the roots are the same; fixed strings stay. */
  ghost predicate Kept(s: State, s': State) {
    && s'.mainthread == s.mainthread && s'.running == s.running && s'.registry == s.registry && s'.mt == s.mt
    && (forall x :: Alive(s, x) ==> x in s'.objs && Kids(s', x) == Kids(s, x))
    && (forall x :: x in s.objs && s.objs[x].fixed ==> x in s'.objs && s'.objs[x].fixed)
  }

  lemma {:induction false} KeptPath(s: State, s': State, p: seq<Ref>)
    requires Lively(s) && Kept(s, s')
    ensures IsPath(s, p) <==> IsPath(s', p)
    decreases |p|
  {
    hide Kids, Lively;
    if |p| > 1 {
      var q := p[..|p| - 1];
      KeptPath(s, s', q);
      assert IsPath(s, p) ==> IsPath(s, q);
      assert IsPath(s', p) ==> IsPath(s', q);
      if IsPath(s, q) {
        PathAlive(s, q);
        assert IsEdge(s, q[|q| - 1], p[|p| - 1]) <==> IsEdge(s', q[|q| - 1], p[|p| - 1]);
        assert forall i :: 0 <= i < |q| ==> p[i] == q[i];
      }
    }
  }

  /** The program sees no difference: the same objects are reachable, along the same paths. */
  lemma KeptReachable(s: State, s': State)
    requires Lively(s) && Kept(s, s')
    ensures forall x :: Reachable(s, x) <==> Reachable(s', x)
  {
    hide Kids, Lively, Kept;
    forall x ensures Reachable(s, x) <==> Reachable(s', x) {
      if Reachable(s, x) {
        var p: seq<Ref> :| IsPath(s, p) && p[|p| - 1] == x;
        KeptPath(s, s', p);
      }
      if Reachable(s', x) {
        var p: seq<Ref> :| IsPath(s', p) && p[|p| - 1] == x;
        KeptPath(s, s', p);
      }
    }
  }

  // ---- facts for the methods that sweep

  lemma InvOwned(s: State, th: Ref, j: nat)
    requires Inv(s) && th in s.open && j < |s.open[th]|
    ensures OwnedBy(s, s.open[th][j], th) && s.open[th][j] in s.uvhead
    ensures IsWhite(s.white) && !s.objs[s.open[th][j]].fixed && s.objs[th].kind.Thread?
  {
    hide StringTable, RootList, Lively;
    assert OpenLists(s);
    ListedUpval(s, th, j);
    ThreadOpen(s, th);
    assert Legal(s.objs[s.open[th][j]]);
  }

  /** The open upvalue at a place of a thread's list. */
  function UpvalHere(s: State, th: Ref, j: nat): (u: Ref)
    requires Inv(s) && th in s.open && j < |s.open[th]|
    ensures u in s.objs && s.objs[u].kind.OpenUpval? && u == s.open[th][j]
  {
    InvOwned(s, th, j);
    s.open[th][j]
  }

  lemma LowerLevels(s: State, th: Ref, level: nat)
    requires Inv(s) && th in s.open
    requires s.open[th] == [] || s.objs[UpvalHere(s, th, 0)].kind.level < level
    ensures forall u :: u in s.open[th] && u in s.objs && s.objs[u].kind.OpenUpval? ==> s.objs[u].kind.level < level
  {
    hide StringTable, RootList, Lively, Distinct;
    assert OpenLists(s);
    assert Descending(s, s.open[th]);
  }

  lemma FreedUpvalShape(s: State, th: Ref, j: nat)
    requires Inv(s) && th in s.open && j < |s.open[th]|
    ensures var x, t := s.open[th][j], FreedUpval(s, th, j);
            && t == s.(objs := s.objs - {x}, open := s.open[th := RemoveAt(s.open[th], j)],
                 uvhead := Without(s.uvhead, x))
            && |t.open[th]| == |s.open[th]| - 1 && |t.uvhead| == |s.uvhead| - 1
            && (forall i :: 0 <= i < j ==> t.open[th][i] == s.open[th][i] && s.open[th][i] != x)
  {
    hide Inv;
    InvOwned(s, th, j);
    WithoutSize(s.uvhead, s.open[th][j]);
    InvDistinct(s, th);
  }

  lemma InvDistinct(s: State, th: Ref)
    requires Inv(s) && th in s.open
    ensures Distinct(s.open[th])
  {
    hide StringTable, RootList, Lively;
    assert OpenLists(s);
    DescendingDistinct(s, s.open[th], th);
  }

  lemma RemoveFirst<T>(q: seq<T>)
    requires q != []
    ensures RemoveAt(q, 0) == q[1..]
  {
  }

  lemma HeadHere(s: State, th: Ref)
    requires th in s.open && s.open[th] != [] && OwnedBy(s, s.open[th][0], th)
    ensures var u := s.open[th][0];
            && u in s.objs && s.objs[u].kind.OpenUpval? && s.objs[u].kind.owner == th && th in s.objs
            && s.objs[u].kind.level < |s.objs[th].slots|
  {
  }

  lemma SweepingBucket(s: State, b: nat, p: nat)
    requires Sweeping(s) && b < |s.strt| && p < |s.strt[b]|
    ensures var x := s.strt[b][p];
            && x in s.objs && (forall i :: 0 <= i < p ==> s.strt[b][i] != x)
            && (s.objs[x].color != Other(s.white) ==> Alive(s, x))
  {
    hide Bucket, Lively, RootList, OpenLists, Swept;
    BucketOf(s, b, p);
    BucketDistinct(s, b);
  }

  lemma BucketDistinct(s: State, b: nat)
    requires StringTable(s) && b < |s.strt|
    ensures Distinct(s.strt[b])
  {
    hide Bucket;
  }

  /** A dead thread without open upvalues owns none; nothing else does. */
  lemma SweepingOwns(s: State, x: Ref)
    requires Sweeping(s) && x in s.objs && (x in s.open ==> s.open[x] == [])
    ensures OwnsNone(s, x)
  {
    hide StringTable, RootList, Lively, Swept;
    forall u | u in s.objs && s.objs[u].kind.OpenUpval? ensures s.objs[u].kind.owner != x {
      OwnerThere(s, u);
    }
  }

  lemma FreedShape(s: State, j: nat)
    requires j < |s.rootgc|
    ensures var t := FreedObject(s, j);
            t == s.(objs := s.objs - {s.rootgc[j]}, rootgc := RemoveAt(s.rootgc, j), open := s.open - {s.rootgc[j]})
  {
  }

  /** What was alive when the sweep came to its thread is alive still. */
  lemma StillAlive(s: State, s': State, all: seq<Ref>, u: Ref)
    requires SweptTo(s, s') && u in all && Inv(s)
    requires forall v :: v in all ==> v in s.objs && s.objs[v].color == s.white
    ensures Alive(s', u) && !Dead(s', u)
  {
    hide Kids, Inv;
    InvWhite(s);
  }

  /** What was dead is dead until it is freed. */
  lemma StillDead(s: State, s': State, j: nat)
    requires Inv(s) && Inv(s') && SweptTo(s, s') && j < |s'.rootgc| && Dead(s, s'.rootgc[j])
    ensures Dead(s', s'.rootgc[j])
  {
    hide Kids, StringTable, OpenLists, Lively;
    OnRootList(s', s'.rootgc[j]);
    assert Legal(s.objs[s'.rootgc[j]]);
  }

  lemma SweepPlace(s: State)
    requires Sweeping(s)
    ensures s.sweepgc <= |s.rootgc|
  {
    hide Lively, StringTable, RootList, OpenLists, Swept;
  }

  lemma SweepHere(s: State)
    requires Sweeping(s) && s.sweepgc < |s.rootgc|
    ensures var x := s.rootgc[s.sweepgc];
            && x in s.objs && IsWhite(s.white) && (x in s.open <==> s.objs[x].kind.Thread?)
            && (s.objs[x].color != Other(s.white) ==> Alive(s, x))
  {
    hide Lively, StringTable, Swept;
    OnRootList(s, s.rootgc[s.sweepgc]);
  }

  lemma OwnedWhite(s: State, th: Ref)
    requires Sweeping(s)
    requires th in s.open ==> forall u :: u in s.open[th] ==> u in s.objs && s.objs[u].color == s.white
    ensures forall u :: u in s.objs && s.objs[u].kind.OpenUpval? && s.objs[u].kind.owner == th ==>
              s.objs[u].color == s.white
  {
    hide Lively, StringTable, RootList, Swept;
    forall u | u in s.objs && s.objs[u].kind.OpenUpval? && s.objs[u].kind.owner == th
      ensures s.objs[u].color == s.white
    {
      OwnerThere(s, u);
    }
  }
}
