/** Marking: how one step changes colours, and what the tri-colour invariant keeps. */
module GcMark {
  import opened GcState
  import opened Numbers

  /** How deep marking one object can nest: an upvalue marks its value, a userdata its tables. */
  function Rank(k: Kind): nat {
    if IsUpval(k) then 2 else if k.Udata? then 1 else 0
  }

  function Recolor(s: State, x: Ref, c: Color): State
    requires x in s.objs
  {
    s.(objs := s.objs[x := s.objs[x].(color := c)])
  }

  ghost predicate SameObj(s: State, s': State, x: Ref)
    requires x in s.objs && x in s'.objs
  {
    s'.objs[x] == s.objs[x].(color := s'.objs[x].color)
  }

  /** The two states differ in colours and gray lists only. */
  ghost predicate SameHeap(s: State, s': State) {
    && s' == s.(objs := s'.objs, gray := s'.gray, grayagain := s'.grayagain)
    && s'.objs.Keys == s.objs.Keys
    && (forall x :: x in s.objs ==> SameObj(s, s', x))
  }

  /** Marking only: objects that were white may have become gray or black, nothing else happened. */
  ghost predicate Grew(s: State, s': State) {
    && SameHeap(s, s')
    && s'.grayagain == s.grayagain
    && (forall x :: x in s.objs ==> s'.objs[x].color == s.objs[x].color || (!Marked(s, x) && Marked(s', x)))
  }

  ghost function Whites(s: State): set<Ref> { set x | x in s.objs && IsWhite(s.objs[x].color) }

  /** `lim` is closed under references and holds everything marked so far. */
  ghost predicate Within(s: State, lim: set<Ref>) {
    && (forall x :: x in lim ==> x in s.objs)
    && (forall x, k :: x in lim && IsEdge(s, x, k) ==> k in lim)
    && (forall x :: Marked(s, x) ==> x in lim)
  }

  lemma SameKids(s: State, s': State, x: Ref)
    requires SameHeap(s, s') && x in s.objs
    ensures Kids(s', x) == Kids(s, x)
  {
    assert SameObj(s, s', x);
    match s.objs[x].kind
    case OpenUpval(th, level) => assert th in s.objs ==> SameObj(s, s', th);
    case _ =>
  }

  lemma SameStructure(s: State, s': State)
    requires Structure(s) && SameHeap(s, s')
    requires forall x :: x in s'.objs ==> Legal(s'.objs[x])
    ensures Structure(s')
  {
    forall x | x in s.objs ensures s'.objs[x].kind == s.objs[x].kind && s'.objs[x].slots == s.objs[x].slots {
      assert SameObj(s, s', x);
    }
    assert RootList(s');
    assert StringTable(s') by {
      forall b, x | 0 <= b < |s.strt| && x in s.strt[b] ensures InBucket(s', x, b) {
        assert InBucket(s, x, b);
      }
    }
    assert OpenLists(s') by {
      forall th, x | th in s.open && x in s.open[th] ensures OwnedBy(s', x, th) {
        assert OwnedBy(s, x, th);
      }
      forall th | th in s.open ensures Descending(s', s.open[th]) {
        assert Descending(s, s.open[th]);
      }
    }
  }

  /** Marking more objects, or marking them differently, keeps everything alive. */
  lemma MarkedLively(s: State, s': State)
    requires Structure(s) && Lively(s) && NoneDead(s) && SameHeap(s, s')
    requires forall x :: x in s'.objs ==> Legal(s'.objs[x])
    requires forall x :: x in s.objs ==> s'.objs[x].color == s.objs[x].color || Marked(s', x)
    ensures Structure(s') && Lively(s') && NoneDead(s')
  {
    hide StringTable, RootList, OpenLists;
    SameStructure(s, s');
    forall x | x in s.objs ensures SameObj(s, s', x) && Alive(s', x) && Alive(s, x) {
    }
    forall x | Alive(s', x) ensures GoodKids(s', x) {
      SameKids(s, s', x);
      assert GoodKids(s, x);
      forall k | k in Kids(s', x) ensures GoodKid(s', s'.objs[x].kind, k) {
        assert GoodKid(s, s.objs[x].kind, k);
      }
    }
  }

  lemma GrewKidsMarked(s: State, s': State, x: Ref)
    requires Grew(s, s') && x in s.objs && KidsMarked(s, x)
    ensures KidsMarked(s', x)
  {
    SameKids(s, s', x);
    forall k | k in Kids(s', x) ensures Plain(k) || Marked(s', k) {
      assert k in Kids(s, x);
    }
  }

  /** One more object is marked; it is remembered in `pend1` or in the gray list. */
  lemma GrewTricolor(s: State, s': State, x: Ref, pend: set<Ref>, pend1: set<Ref>)
    requires Tricolor(s, pend) && Grew(s, s') && x in s.objs
    requires forall y :: Marked(s', y) ==> Marked(s, y) || y == x
    requires forall y :: y in s.objs && y != x ==> s'.objs[y] == s.objs[y]
    requires forall y :: y in s.gray ==> y in s'.gray
    requires pend <= pend1
    requires x in pend1 || (x in s'.gray && Composite(s.objs[x].kind))
    ensures Tricolor(s', pend1)
  {
    forall y | Marked(s', y) ensures y in s'.gray || y in pend1 || KidsMarked(s', y) {
      if y != x && KidsMarked(s, y) {
        GrewKidsMarked(s, s', y);
      }
    }
    assert SameObj(s, s', x);
  }

  lemma RecolorGrew(s: State, x: Ref, c: Color, gray: seq<Ref>)
    requires x in s.objs && !Marked(s, x) && !IsWhite(c)
    ensures var s' := Recolor(s, x, c).(gray := gray);
            Grew(s, s') && (forall y :: Marked(s', y) <==> Marked(s, y) || y == x)
  {
  }

  /** Objects that are never listed leave the lists right. */
  lemma UnlistedLists(s: State, x: Ref, c: Color)
    requires GrayLists(s) && x in s.objs && !Composite(s.objs[x].kind)
    ensures GrayLists(Recolor(s, x, c))
  {
    var s' := Recolor(s, x, c);
    assert !GrayEntry(s, x);
    assert forall y :: GrayEntry(s', y) <==> GrayEntry(s, y);
    assert forall y :: Listed(s', y) <==> Listed(s, y);
  }

  lemma PushLists(s: State, x: Ref)
    requires GrayLists(s) && x in s.objs && !Marked(s, x) && Composite(s.objs[x].kind)
    ensures GrayLists(Recolor(s, x, Gray).(gray := [x] + s.gray))
  {
    var s' := Recolor(s, x, Gray).(gray := [x] + s.gray);
    assert !GrayEntry(s, x);
    var q := s.gray + s.grayagain;
    assert s'.gray + s'.grayagain == [x] + q;
    forall i | 0 <= i < |q| ensures q[i] != x {
      assert Listed(s, q[i]);
    }
    forall y ensures Listed(s', y) <==> y == x || Listed(s, y) {
    }
    forall y | y != x ensures GrayEntry(s', y) <==> GrayEntry(s, y) {
    }
  }

  /** Marking an object that is never listed. */
  lemma MarkOne(s: State, x: Ref, c: Color, pend: set<Ref>)
    requires Marking(s, pend) && x in s.objs && !Marked(s, x)
    requires !Composite(s.objs[x].kind) && !IsWhite(c) && Legal(s.objs[x].(color := c))
    ensures Marking(Recolor(s, x, c), pend + {x}) && Grew(s, Recolor(s, x, c))
  {
    hide Lively, StringTable, RootList, OpenLists, GrayLists, Tricolor;
    var s' := Recolor(s, x, c);
    RecolorGrew(s, x, c, s.gray);
    assert s' == s'.(gray := s.gray);
    MarkedLively(s, s');
    UnlistedLists(s, x, c);
    GrewTricolor(s, s', x, pend, pend + {x});
  }

  /** Marking an object whose references are marked later. */
  lemma MarkComposite(s: State, x: Ref, pend: set<Ref>)
    requires Marking(s, pend) && x in s.objs && !Marked(s, x) && Composite(s.objs[x].kind)
    ensures var s' := Recolor(s, x, Gray).(gray := [x] + s.gray);
            Marking(s', pend) && Grew(s, s')
  {
    hide Lively, StringTable, RootList, OpenLists, GrayLists, Tricolor;
    var s' := Recolor(s, x, Gray).(gray := [x] + s.gray);
    RecolorGrew(s, x, Gray, [x] + s.gray);
    MarkedLively(s, s');
    PushLists(s, x);
    GrewTricolor(s, s', x, pend, pend);
  }

  /** All references of `x` are marked: it need not be remembered. */
  lemma Unpend(s: State, x: Ref, pend: set<Ref>)
    requires Marking(s, pend + {x}) && x in s.objs && KidsMarked(s, x)
    requires s.objs[x].kind.Udata? || s.objs[x].kind.ClosedUpval? ==> s.objs[x].color == Black
    ensures Marking(s, pend)
  {
  }

  lemma SameMarksKids(s: State, s': State, x: Ref)
    requires SameHeap(s, s') && x in s.objs && KidsMarked(s, x)
    requires forall y :: Marked(s, y) ==> Marked(s', y)
    ensures KidsMarked(s', x)
  {
    SameKids(s, s', x);
    forall k | k in Kids(s', x) ensures Plain(k) || Marked(s', k) {
      assert k in Kids(s, x);
    }
  }

  lemma BlackenTricolor(s: State, x: Ref, pend: set<Ref>)
    requires Tricolor(s, pend) && x in s.objs && s.objs[x].color == Gray
    ensures Tricolor(Recolor(s, x, Black), pend)
  {
    var s' := Recolor(s, x, Black);
    assert SameHeap(s, s');
    forall y | Marked(s', y) ensures y in s'.gray || y in pend || KidsMarked(s', y) {
      if KidsMarked(s, y) {
        SameMarksKids(s, s', y);
      }
    }
  }

  /** A closed upvalue whose value is marked. */
  lemma Blacken(s: State, x: Ref, pend: set<Ref>)
    requires Marking(s, pend) && x in s.objs && s.objs[x].color == Gray && s.objs[x].kind.ClosedUpval?
    ensures Marking(Recolor(s, x, Black), pend) && SameHeap(s, Recolor(s, x, Black))
  {
    hide Lively, StringTable, RootList, OpenLists, GrayLists, Tricolor;
    var s' := Recolor(s, x, Black);
    assert SameHeap(s, s');
    MarkedLively(s, s');
    UnlistedLists(s, x, Black);
    BlackenTricolor(s, x, pend);
  }

  lemma WithinGrew(s: State, s': State, x: Ref, lim: set<Ref>)
    requires Within(s, lim) && x in lim && SameHeap(s, s')
    requires forall y :: Marked(s', y) ==> Marked(s, y) || y == x
    ensures Within(s', lim)
  {
    forall y, k | y in lim && IsEdge(s', y, k) ensures k in lim {
      SameKids(s, s', y);
      assert IsEdge(s, y, k);
    }
  }

  lemma KidsDone(s: State, s': State, x: Ref)
    requires Grew(s, s') && x in s.objs && Marked(s, x)
    requires forall k :: k in Kids(s, x) ==> Plain(k) || Marked(s', k)
    ensures KidsMarked(s', x) && s'.objs[x] == s.objs[x]
  {
    SameKids(s, s', x);
    assert SameObj(s, s', x);
  }

  /** An object marked together with its references: nothing needs to be remembered about it. */
  lemma MarkFinished(s: State, s1: State, s2: State, x: Ref, c: Color, pend: set<Ref>, lim: set<Ref>)
    requires Marking(s, pend) && x in s.objs && !Marked(s, x) && !Composite(s.objs[x].kind) && !IsWhite(c)
    requires s1 == Recolor(s, x, c) && Grew(s, s1) && Grew(s1, s2)
    requires Marking(s2, pend + {x}) && Within(s2, lim) && x in lim
    requires forall k :: k in Kids(s1, x) ==> Plain(k) || Marked(s2, k)
    requires c == if s.objs[x].kind.Udata? then Black else Gray
    ensures x in s2.objs
    ensures var s3 := if s.objs[x].kind.ClosedUpval? then Recolor(s2, x, Black) else s2;
            Marking(s3, pend) && Within(s3, lim) && Grew(s, s3) && Marked(s3, x)
  {
    hide Structure, Lively, NoneDead, GrayLists, Tricolor;
    KidsDone(s1, s2, x);
    GrewTrans(s, s1, s2);
    if s.objs[x].kind.ClosedUpval? {
      Blacken(s2, x, pend + {x});
      var s3 := Recolor(s2, x, Black);
      WithinGrew(s2, s3, x, lim);
      SameMarksKids(s2, s3, x);
      assert Grew(s, s3);
      Unpend(s3, x, pend);
    } else {
      Unpend(s2, x, pend);
    }
  }

  /** The references of an object, ready to be marked. */
  lemma KidsReady(s: State, x: Ref, pend: set<Ref>, lim: set<Ref>)
    requires Marking(s, pend) && Within(s, lim) && x in s.objs && x in lim
    ensures Legal(s.objs[x])
    ensures forall k :: k in Kids(s, x) && !Plain(k) ==>
              && k in s.objs && k in lim
              && Rank(s.objs[k].kind) < (if Composite(s.objs[x].kind) then 3 else Rank(s.objs[x].kind))
  {
    assert Alive(s, x) && GoodKids(s, x);
    forall k | k in Kids(s, x) && !Plain(k)
      ensures k in s.objs && k in lim
      ensures Rank(s.objs[k].kind) < (if Composite(s.objs[x].kind) then 3 else Rank(s.objs[x].kind))
    {
      assert GoodKid(s, s.objs[x].kind, k);
      assert IsEdge(s, x, k);
    }
  }

  lemma GrewTrans(a: State, b: State, c: State)
    requires Grew(a, b) && Grew(b, c)
    ensures Grew(a, c)
  {
    forall x | x in a.objs
      ensures SameObj(a, c, x) && (c.objs[x].color == a.objs[x].color || (!Marked(a, x) && Marked(c, x)))
    {
      assert SameObj(a, b, x) && SameObj(b, c, x);
    }
  }

  // ---- taking an object off the gray list

  /** Marking that may also move threads to the second gray list. */
  ghost predicate Advanced(s: State, s': State) {
    && SameHeap(s, s')
    && (forall x :: Marked(s, x) ==> Marked(s', x))
    && Again(s) <= Again(s')
  }

  lemma AdvancedTrans(a: State, b: State, c: State)
    requires Advanced(a, b) && Advanced(b, c)
    ensures Advanced(a, c)
  {
    forall x | x in a.objs ensures SameObj(a, c, x) {
      assert SameObj(a, b, x) && SameObj(b, c, x);
    }
  }

  lemma GrewWhites(s: State, s': State, x: Ref)
    requires Grew(s, s') && x in s.objs && !Marked(s, x) && Marked(s', x)
    ensures Whites(s') < Whites(s)
  {
    assert x in Whites(s) && x !in Whites(s');
    forall y | y in Whites(s') ensures y in Whites(s) {
      assert SameObj(s, s', y);
    }
  }

  lemma MovedDistinct<T>(q: seq<T>, r: seq<T>)
    requires Distinct(q + r) && q != []
    ensures Distinct(q[1..] + r) && Distinct(q[1..] + ([q[0]] + r))
    ensures q[0] !in q[1..] + r
  {
    var all := q + r;
    assert all[0] == q[0];
    forall i | 0 <= i < |q[1..] + r| ensures (q[1..] + r)[i] == all[i + 1] && all[i + 1] != q[0] {
    }
    var moved := q[1..] + ([q[0]] + r);
    var k := |q| - 1;
    forall i, j | 0 <= i < j < |moved| ensures moved[i] != moved[j] {
      assert moved[i] == (if i < k then all[i + 1] else if i == k then all[0] else all[i]);
      assert moved[j] == (if j < k then all[j + 1] else if j == k then all[0] else all[j]);
    }
  }

  lemma PopThread(s: State, pend: set<Ref>)
    requires Marking(s, pend) && s.gray != [] && s.gray[0] in s.objs && s.objs[s.gray[0]].kind.Thread?
    ensures var s' := s.(gray := s.gray[1..], grayagain := [s.gray[0]] + s.grayagain);
            Marking(s', pend + {s.gray[0]}) && Advanced(s, s') && Marked(s', s.gray[0])
  {
    hide StringTable, RootList, OpenLists;
    var o := s.gray[0];
    var s' := s.(gray := s.gray[1..], grayagain := [o] + s.grayagain);
    MovedDistinct(s.gray, s.grayagain);
    assert forall x :: Listed(s', x) <==> Listed(s, x);
    assert Listed(s, o);
    MarkedLively(s, s');
    forall x | Marked(s', x) ensures x in s'.gray || x in pend + {o} || KidsMarked(s', x) {
      if x != o && KidsMarked(s, x) {
        SameMarksKids(s, s', x);
      }
    }
  }

  lemma PopLists(s: State)
    requires GrayLists(s) && s.gray != [] && s.gray[0] in s.objs
    ensures GrayLists(Recolor(s, s.gray[0], Black).(gray := s.gray[1..]))
  {
    var o := s.gray[0];
    var s' := Recolor(s, o, Black).(gray := s.gray[1..]);
    MovedDistinct(s.gray, s.grayagain);
    assert forall x :: Listed(s, x) <==> x == o || Listed(s', x);
    assert !Listed(s', o);
    assert forall x :: x != o ==> (GrayEntry(s', x) <==> GrayEntry(s, x));
  }

  lemma PopTricolor(s: State, pend: set<Ref>)
    requires Tricolor(s, pend) && s.gray != [] && s.gray[0] in s.objs && Marked(s, s.gray[0])
    ensures Tricolor(Recolor(s, s.gray[0], Black).(gray := s.gray[1..]), pend + {s.gray[0]})
  {
    var o := s.gray[0];
    var s' := Recolor(s, o, Black).(gray := s.gray[1..]);
    assert SameHeap(s, s');
    forall x | Marked(s', x) ensures x in s'.gray || x in pend + {o} || KidsMarked(s', x) {
      if x != o && KidsMarked(s, x) {
        SameMarksKids(s, s', x);
      }
    }
  }

  lemma PopBlack(s: State, pend: set<Ref>)
    requires Marking(s, pend) && s.gray != [] && s.gray[0] in s.objs && !s.objs[s.gray[0]].kind.Thread?
    ensures var s' := Recolor(s, s.gray[0], Black).(gray := s.gray[1..]);
            Marking(s', pend + {s.gray[0]}) && Advanced(s, s') && Marked(s', s.gray[0])
  {
    hide StringTable, RootList, OpenLists, Lively, NoneDead, Tricolor;
    var o := s.gray[0];
    var s' := Recolor(s, o, Black).(gray := s.gray[1..]);
    assert Listed(s, o);
    MarkedLively(s, s');
    PopLists(s);
    PopTricolor(s, pend);
  }

  lemma GrewAdvanced(s: State, s': State)
    requires Grew(s, s')
    ensures Advanced(s, s')
  {
    forall x | Marked(s, x) ensures Marked(s', x) {
      assert SameObj(s, s', x);
    }
  }

  lemma AdvancedSelf(s: State)
    ensures Advanced(s, s)
  {
  }

  lemma GrewSubset(s: State, s': State)
    requires Grew(s, s')
    ensures Whites(s') <= Whites(s)
  {
    forall y | y in Whites(s') ensures y in Whites(s) {
      assert SameObj(s, s', y);
    }
  }

  lemma PopReady(s: State, pend: set<Ref>, lim: set<Ref>)
    requires Marking(s, pend) && Within(s, lim) && s.gray != []
    ensures var o := s.gray[0];
            o in s.objs && o in lim && Marked(s, o) && Composite(s.objs[o].kind) && s.objs[o].color == Gray
  {
    assert Listed(s, s.gray[0]);
  }

  lemma PropagateDone(s: State, s1: State, s2: State, o: Ref, pend: set<Ref>)
    requires Advanced(s, s1) && Grew(s1, s2) && o in s1.objs && Marked(s, o) && Marked(s1, o)
    requires Composite(s1.objs[o].kind)
    requires forall x :: x in s.objs && x != o ==> s1.objs[x] == s.objs[x]
    requires Marking(s2, pend + {o})
    requires forall k :: k in Kids(s1, o) ==> Plain(k) || Marked(s2, k)
    requires |s1.gray| < |s.gray|
    requires s2.gray == s1.gray || Whites(s2) < Whites(s1)
    ensures Marking(s2, pend) && Advanced(s, s2)
    ensures Whites(s2) < Whites(s) || (Whites(s2) == Whites(s) && |s2.gray| < |s.gray|)
  {
    hide Structure, Lively, NoneDead, GrayLists, Tricolor;
    KidsDone(s1, s2, o);
    GrewAdvanced(s1, s2);
    AdvancedTrans(s, s1, s2);
    Unpend(s2, o, pend);
    assert Whites(s1) == Whites(s);
    GrewSubset(s1, s2);
  }

  // ---- steps that leave the objects alone

  /** Same objects and the same lists that hold them. */
  predicate SameObjects(s: State, s': State) {
    && s'.objs == s.objs && s'.rootgc == s.rootgc && s'.strt == s.strt && s'.nuse == s.nuse && s'.open == s.open
         && s'.uvhead == s.uvhead
  }

  lemma SameLists(s: State, s': State)
    requires SameObjects(s, s')
    ensures RootList(s) ==> RootList(s')
    ensures StringTable(s) ==> StringTable(s')
    ensures OpenLists(s) ==> OpenLists(s')
  {
    if StringTable(s) {
      forall b, x | 0 <= b < |s.strt| && x in s.strt[b] ensures InBucket(s', x, b) {
        assert InBucket(s, x, b);
      }
    }
    if OpenLists(s) {
      forall th, x | th in s.open && x in s.open[th] ensures OwnedBy(s', x, th) {
        assert OwnedBy(s, x, th);
      }
      forall th | th in s.open ensures Descending(s', s.open[th]) {
        assert Descending(s, s.open[th]);
      }
    }
  }

  lemma SameEdges(s: State, s': State)
    requires s'.objs == s.objs
    ensures forall x :: x in s.objs ==> Kids(s', x) == Kids(s, x)
    ensures forall x :: Marked(s', x) <==> Marked(s, x)
    ensures forall x :: x in s.objs ==> (KidsMarked(s', x) <==> KidsMarked(s, x))
    ensures forall x, k :: IsEdge(s', x, k) <==> IsEdge(s, x, k)
  {
    forall x | x in s.objs ensures Kids(s', x) == Kids(s, x) {
    }
    forall x | x in s.objs ensures KidsMarked(s', x) <==> KidsMarked(s, x) {
      assert forall k :: Marked(s', k) <==> Marked(s, k);
    }
  }

  /** With the same white and roots, liveness is the same. */
  lemma SameLively(s: State, s': State)
    requires SameObjects(s, s') && Structure(s) && Lively(s)
    requires s'.white == s.white && s'.mainthread == s.mainthread && s'.running == s.running
    requires s'.registry == s.registry && s'.mt == s.mt
    requires s'.sweepgc <= |s'.rootgc|
    ensures Structure(s') && Lively(s')
  {
    hide RootList, StringTable, OpenLists;
    SameLists(s, s');
    SameEdges(s, s');
    forall x | Alive(s', x) ensures GoodKids(s', x) {
      assert Alive(s, x) && GoodKids(s, x);
      forall k | k in Kids(s', x) ensures GoodKid(s', s'.objs[x].kind, k) {
        assert GoodKid(s, s.objs[x].kind, k);
      }
    }
  }

  lemma SameMarking(s: State, s': State, pend: set<Ref>)
    requires Structure(s') && Lively(s')
    requires SameObjects(s, s') && s'.white == s.white && s'.gray == s.gray && s'.grayagain == s.grayagain
    requires NoneDead(s) && GrayLists(s) && Tricolor(s, pend)
    ensures Marking(s', pend)
  {
    hide Structure, Lively;
    SameEdges(s, s');
    assert forall x :: GrayEntry(s', x) <==> GrayEntry(s, x);
    assert forall x :: Listed(s', x) <==> Listed(s, x);
  }

  // ---- from one cycle to the next

  /** A clean heap with empty gray lists: nothing is marked yet. */
  lemma CleanMarking(s: State, lim: set<Ref>)
    requires Structure(s) && Lively(s) && Clean(s) && s.gray == [] && s.grayagain == []
    requires forall x :: x in lim ==> x in s.objs
    requires forall x, k :: x in lim && IsEdge(s, x, k) ==> k in lim
    ensures Marking(s, {}) && Within(s, lim)
  {
    hide StringTable, RootList, OpenLists, Lively;
    assert forall x :: x in s.objs ==> !Marked(s, x);
  }

  /** Everything in the heap bounds the marking as long as nothing is dead. */
  lemma AllWithin(s: State)
    requires Lively(s) && NoneDead(s)
    ensures Within(s, s.objs.Keys)
    ensures forall x, k :: x in s.objs.Keys && IsEdge(s, x, k) ==> k in s.objs.Keys
  {
    forall x, k | x in s.objs.Keys && IsEdge(s, x, k) ensures k in s.objs.Keys {
      assert Alive(s, x) && GoodKids(s, x);
      assert GoodKid(s, s.objs[x].kind, k);
    }
  }

  lemma UnpendUnmarked(s: State, x: Ref, pend: set<Ref>)
    requires Marking(s, pend + {x}) && !Marked(s, x)
    ensures Marking(s, pend)
  {
    hide Structure, Lively, NoneDead, GrayLists;
  }

  lemma InvMarking(s: State)
    requires Inv(s) && s.phase == Propagate
    ensures Marking(s, Again(s) + OpenUpvals(s)) && Marked(s, s.mainthread) && Marked(s, s.registry)
  {
    hide Structure, Lively, NoneDead, GrayLists, Tricolor;
  }

  lemma MarkingInv(s: State, pend: set<Ref>)
    requires Marking(s, pend) && s.phase == Propagate && pend <= Again(s) + OpenUpvals(s)
    requires Marked(s, s.mainthread) && Marked(s, s.registry)
    ensures Inv(s)
  {
    hide Structure, Lively, NoneDead, GrayLists;
  }

  /** The threads met while marking take the place of the gray list for the last pass. */
  lemma SecondList(s: State, pend: set<Ref>, lim: set<Ref>)
    requires Marking(s, pend) && s.gray == [] && pend <= Again(s) && Within(s, lim)
    ensures var s' := s.(gray := s.grayagain, grayagain := []); Marking(s', {}) && Within(s', lim)
  {
    hide RootList, StringTable, OpenLists, Lively;
    var s' := s.(gray := s.grayagain, grayagain := []);
    SameLively(s, s');
    SameEdges(s, s');
    assert s'.gray + s'.grayagain == s.gray + s.grayagain;
    assert forall x :: Listed(s', x) <==> Listed(s, x);
    assert forall x :: GrayEntry(s', x) <==> GrayEntry(s, x);
    forall x | x in pend ensures GrayEntry(s, x) {
      assert Listed(s, x);
    }
  }

  lemma MarkingWhite(s: State, pend: set<Ref>)
    requires Marking(s, pend)
    ensures IsWhite(s.white)
  {
    hide RootList, StringTable, OpenLists, Lively, NoneDead, GrayLists, Tricolor;
  }

  function Flipped(s: State): State {
    s.(white := Other(s.white), phase := SweepString, sweepstrgc := 0, sweepgc := 0)
  }

  lemma FlipKids(s: State, x: Ref)
    requires Marking(s, {}) && s.gray == [] && Alive(Flipped(s), x)
    ensures GoodKids(Flipped(s), x)
  {
    hide StringTable, RootList, OpenLists;
    var s' := Flipped(s);
    SameEdges(s, s');
    assert KidsMarked(s, x) && Alive(s, x) && GoodKids(s, x);
    forall k | k in Kids(s', x) ensures GoodKid(s', s'.objs[x].kind, k) {
      assert GoodKid(s, s.objs[x].kind, k);
    }
  }

  lemma FlipAhead(s: State, x: Ref)
    requires Structure(s) && x in s.objs
    ensures Ahead(Flipped(s), x)
  {
    hide RootList;
    NonemptyTable(s);
    if s.objs[x].kind.OpenUpval? {
      assert AheadOnRoot(Flipped(s), s.objs[x].kind.owner);
    }
  }

  /** Turning the whites over at the end of marking: exactly what was marked is alive. */
  lemma FlipInv(s: State)
    requires Marking(s, {}) && s.gray == []
    requires Marked(s, s.mainthread) && Marked(s, s.running) && Marked(s, s.registry)
    requires forall x :: x in s.mt ==> Marked(s, x)
    ensures Inv(Flipped(s)) && forall x :: Alive(Flipped(s), x) <==> Marked(s, x)
  {
    hide StringTable, RootList, OpenLists;
    var s' := Flipped(s);
    assert forall x :: Alive(s', x) <==> Marked(s, x);
    SameLists(s, s');
    SameEdges(s, s');
    forall x | Alive(s', x) ensures GoodKids(s', x) {
      FlipKids(s, x);
    }
    forall x | x in s'.objs ensures Ahead(s', x) {
      FlipAhead(s, x);
    }
    NonemptyTable(s);
  }

  lemma NonemptyTable(s: State)
    requires StringTable(s)
    ensures |s.strt| > 0
  {
  }

  lemma RootsThere(s: State)
    requires Structure(s) && Lively(s)
    ensures forall x :: IsRoot(s, x) ==> x in s.objs && !Plain(x)
    ensures s.registry in s.objs && s.mainthread in s.objs && s.objs[s.mainthread].kind.Thread?
    ensures !Plain(s.registry) && !Plain(s.mainthread)
  {
  }

  lemma GrewSelf(s: State)
    ensures Grew(s, s)
  {
  }

  lemma GrewMarked(s: State, s': State, x: Ref)
    requires Grew(s, s') && Marked(s, x)
    ensures Marked(s', x)
  {
    assert SameObj(s, s', x);
  }

  lemma ClearLists(s: State, s': State)
    requires Structure(s) && Lively(s) && Clean(s)
    requires s' == s.(gray := s'.gray, grayagain := s'.grayagain)
    ensures Structure(s') && Lively(s') && Clean(s') && SameHeap(s, s')
    ensures forall x, k :: IsEdge(s', x, k) <==> IsEdge(s, x, k)
  {
    hide RootList, StringTable, OpenLists, Lively;
    SameLively(s, s');
    SameEdges(s, s');
  }

  lemma MarkingPhase(s: State, s': State, pend: set<Ref>, lim: set<Ref>)
    requires Marking(s, pend) && Within(s, lim)
    requires s' == s.(phase := s'.phase)
    ensures Marking(s', pend) && Within(s', lim)
  {
    hide NoneDead, GrayLists, Tricolor, Lively;
    SameLively(s, s');
    SameMarking(s, s', pend);
    SameEdges(s, s');
  }

  lemma GrewObj(s: State, s': State, x: Ref)
    requires Grew(s, s') && x in s.objs
    ensures x in s'.objs && s'.objs[x] == s.objs[x].(color := s'.objs[x].color) && Kids(s', x) == Kids(s, x)
    ensures Marked(s, x) ==> Marked(s', x)
  {
    assert SameObj(s, s', x);
    SameKids(s, s', x);
  }

  lemma FirstSlot(s: State, x: Ref)
    requires x in s.objs && s.objs[x].kind.Thread? && |s.objs[x].slots| > 0
    ensures s.objs[x].slots[0] in Kids(s, x)
  {
  }

  lemma MainMarked(s: State, s1: State, s2: State, s3: State)
    requires Grew(s, s1) && Grew(s1, s2) && Grew(s2, s3)
    requires Marked(s1, s.mainthread) && Marked(s3, s.registry)
    ensures Grew(s, s3) && Marked(s3, s.mainthread)
  {
    GrewMarked(s1, s2, s.mainthread);
    GrewMarked(s2, s3, s.mainthread);
    GrewTrans(s, s1, s2);
    GrewTrans(s, s2, s3);
  }

  lemma RootMarked(s: State, cleared: State, s3: State, s4: State)
    requires cleared == s.(gray := [], grayagain := [])
    requires Grew(cleared, s3) && Grew(s3, s4)
    requires Marked(s3, s.mainthread) && Marked(s3, s.registry)
    ensures SameHeap(s, s4) && Marked(s4, s.mainthread) && Marked(s4, s.registry)
  {
    GrewMarked(s3, s4, s.mainthread);
    GrewMarked(s3, s4, s.registry);
    GrewTrans(cleared, s3, s4);
    forall x | x in s.objs ensures SameObj(s, s4, x) {
      assert SameObj(cleared, s4, x);
    }
  }

  lemma MarkedPhase(s: State, s': State)
    requires s' == s.(phase := s'.phase)
    ensures forall x :: Marked(s', x) <==> Marked(s, x)
  {
  }

  lemma MarkingRoots(s: State, pend: set<Ref>)
    requires Marking(s, pend)
    ensures forall x :: IsRoot(s, x) ==> x in s.objs && !Plain(x)
    ensures s.mainthread in s.objs && s.objs[s.mainthread].kind.Thread? && s.registry in s.objs
  {
    hide RootList, StringTable, OpenLists;
  }

  lemma UpvalSet(s: State, all: set<Ref>)
    requires all == set x | x in s.uvhead
    ensures OpenUpvals(s) == all
  {
  }

  lemma UpvalThere(s: State, pend: set<Ref>, x: Ref)
    requires Marking(s, pend) && x in s.uvhead
    ensures x in s.objs && s.objs[x].kind.OpenUpval? && (Marked(s, x) <==> s.objs[x].color == Gray)
  {
    assert Legal(s.objs[x]);
  }

  lemma UpvalWithin(s: State, x: Ref, lim: set<Ref>)
    requires Within(s, lim) && Marked(s, x)
    ensures x in lim
  {
  }

  lemma InvRoots(s: State)
    requires Inv(s)
    ensures Structure(s) && Lively(s)
    ensures forall x :: IsRoot(s, x) ==> x in s.objs && !Plain(x)
    ensures s.running in s.objs && !Plain(s.running)
  {
  }

  /** Same addresses and same contents up to colours. */
  ghost predicate SameObjs(a: map<Ref, Obj>, b: map<Ref, Obj>) {
    a.Keys == b.Keys && forall x :: x in a ==> b[x] == a[x].(color := b[x].color)
  }

  lemma AdvancedMarked(s: State, s': State, x: Ref)
    requires Advanced(s, s') && Marked(s, x)
    ensures Marked(s', x)
  {
  }

  lemma AdvancedAgain(s: State, s': State)
    requires Advanced(s, s')
    ensures Again(s) <= Again(s')
  {
  }

  lemma AtomicMarked(s: State, s1: State, s2: State, s3: State, s4: State, s5: State)
    requires Grew(s, s1) && Advanced(s1, s2) && Grew(s2, s3) && Grew(s3, s4) && Advanced(s4, s5)
    requires Marked(s3, s.running) && forall x :: x in s.mt ==> Plain(x) || Marked(s4, x)
    requires forall x :: x in s.mt ==> !Plain(x)
    ensures Advanced(s, s5) && Marked(s5, s.running) && forall x :: x in s.mt ==> Marked(s5, x)
  {
    hide Grew, Advanced, Marked;
    GrewAdvanced(s, s1);
    AdvancedTrans(s, s1, s2);
    GrewAdvanced(s2, s3);
    AdvancedTrans(s, s2, s3);
    GrewAdvanced(s3, s4);
    AdvancedTrans(s, s3, s4);
    AdvancedTrans(s, s4, s5);
    GrewMarked(s3, s4, s.running);
    AdvancedMarked(s4, s5, s.running);
    forall x | x in s.mt ensures Marked(s5, x) {
      AdvancedMarked(s4, s5, x);
    }
  }

  lemma AdvancedSameObjs(s: State, s': State)
    requires Advanced(s, s')
    ensures SameObjs(s.objs, s'.objs)
  {
    forall x | x in s.objs ensures s'.objs[x] == s.objs[x].(color := s'.objs[x].color) {
      assert SameObj(s, s', x);
    }
  }

  /** The roots are marked when the last pass is over. */
  lemma AtomicRoots(s: State, s5: State, s6: State, s7: State)
    requires Marked(s, s.mainthread) && Marked(s, s.registry)
    requires Advanced(s, s5) && Marked(s5, s.running) && forall x :: x in s.mt ==> Marked(s5, x)
    requires s6.objs == s5.objs && Advanced(s6, s7)
    ensures Marked(s7, s.mainthread) && Marked(s7, s.registry) && Marked(s7, s.running)
    ensures forall x :: x in s.mt ==> Marked(s7, x)
    ensures SameObjs(s.objs, s7.objs)
  {
    hide Advanced;
    AdvancedMarked(s, s5, s.mainthread);
    AdvancedMarked(s, s5, s.registry);
    AdvancedMarked(s6, s7, s.mainthread);
    AdvancedMarked(s6, s7, s.registry);
    AdvancedMarked(s6, s7, s.running);
    forall x | x in s.mt ensures Marked(s7, x) {
      AdvancedMarked(s6, s7, x);
    }
    AdvancedSameObjs(s, s5);
    AdvancedSameObjs(s6, s7);
  }

  lemma WithinMarked(s: State, lim: set<Ref>)
    requires Within(s, lim)
    ensures forall x :: Marked(s, x) ==> x in lim
  {
  }
}
