/** What an engine tells its program about an option, held against the state of the option (libtelnet.c). */
module TelnetNotices {
  import opened Bytes
  import opened TelnetQ
  import opened TelnetStream

  predicate IsNotice(e: Event) { e.OnWill? || e.OnWont? || e.OnDo? || e.OnDont? }

  /** What the program is told of the options. */
  function ToldOf(evs: seq<Event>): seq<Event> {
    if evs == [] then [] else (if IsNotice(evs[0]) then [evs[0]] else []) + ToldOf(evs[1..])
  }

  ghost predicate OthersKept(q: Options, q1: Options, opt: Byte) {
    forall other: Byte :: other != opt ==> Get(q1, other) == Get(q, other)
  }

  lemma {:induction false} ToldAppend(x: seq<Event>, y: seq<Event>)
    ensures ToldOf(x + y) == ToldOf(x) + ToldOf(y)
  {
    if x == [] {
      assert x + y == y;
    } else {
      assert (x + y)[1..] == x[1..] + y;
      ToldAppend(x[1..], y);
    }
  }

  lemma NoticesTold(o: Option, v: Verb, s: bool, opt: Byte)
    ensures ToldOf(Notices(o, v, s, opt)) == if Notices(o, v, s, opt) == [] then [] else [Notices(o, v, s, opt)[0]]
  {
    var evs := Notices(o, v, s, opt);
    if |evs| == 1 {
      assert evs[1..] == [];
    } else if |evs| == 2 {
      assert evs[1..] == [evs[1]] && [evs[1]][1..] == [];
      assert ToldOf([evs[1]]) == [];
      assert [evs[0]] + [] == [evs[0]];
    }
  }

  /** A verb of the other side about what it does: what changes is told as a change of that, once, and nothing is told
      where nothing changes or where it only refuses. */
  lemma HimTold(q: Options, sup: Support, v: Verb, opt: Byte)
    requires AboutHim(v)
    ensures var (q1, evs) := Negotiation(q, sup, false, v, opt);
            var (before, after) := (Get(q, opt).him, Get(q1, opt).him);
            && Get(q1, opt).us == Get(q, opt).us && OthersKept(q, q1, opt)
            && (after == before ==> ToldOf(evs) == [])
            && (before != Yes && after == Yes ==> ToldOf(evs) == [OnWill(opt)])
            && (before == Yes && after != Yes ==> after == No && ToldOf(evs) == [OnWont(opt)])
            && (before == WantNo ==> after == No && ToldOf(evs) == [OnWont(opt)])
            && (before == No ==> after == No || after == Yes)
            && (Wants(before) ==> after == Yes || after == WantNo || (after == No && ToldOf(evs) == []))
            && (after == WantNo ==> before == WantYesOp && ToldOf(evs) == [OnWill(opt)])
            && (before == WantNoOp && after != Yes ==> after == WantYes && ToldOf(evs) == [OnDo(opt)])
  {
    hide ToldOf;
    var o, s := Get(q, opt), Supports(sup, v, opt);
    var answers := Answers(v, Negotiated(o, v, s).1, opt);
    ToldAppend(answers, Notices(o, v, s, opt));
    NoticesTold(o, v, s, opt);
    AnswersTell(v, Negotiated(o, v, s).1, opt);
  }

  lemma AnswersTell(v: Verb, r: Reply, opt: Byte)
    ensures ToldOf(Answers(v, r, opt)) == []
  {
    var evs := Answers(v, r, opt);
    assert evs != [] ==> evs[1..] == [];
  }

  /** A verb about what we do is told in the same way, but for the answer that ends it at our own request: that is told
      as if the other side had ended its own. */
  lemma UsTold(q: Options, sup: Support, v: Verb, opt: Byte)
    requires !AboutHim(v)
    ensures var (q1, evs) := Negotiation(q, sup, false, v, opt);
            var (before, after) := (Get(q, opt).us, Get(q1, opt).us);
            && Get(q1, opt).him == Get(q, opt).him && OthersKept(q, q1, opt)
            && (after == before ==> ToldOf(evs) == [])
            && (before != Yes && after == Yes ==> ToldOf(evs) == [OnDo(opt)])
            && (before == Yes && after != Yes ==> after == No && ToldOf(evs) == [OnDont(opt)])
            && (before == WantNo ==> after == No && ToldOf(evs) == [if v == Dont then OnWont(opt) else OnDont(opt)])
            && (before == No ==> after == No || after == Yes)
            && (Wants(before) ==> after == Yes || after == WantNo || (after == No && ToldOf(evs) == []))
            && (after == WantNo ==> before == WantYesOp && ToldOf(evs) == [OnDo(opt)])
            && (before == WantNoOp && after != Yes ==> v == Dont && after == WantYes && ToldOf(evs) == [OnWill(opt)])
            && (v == Dont ==> after != Yes)
  {
    hide ToldOf;
    var o, s := Get(q, opt), Supports(sup, v, opt);
    var answers := Answers(v, Negotiated(o, v, s).1, opt);
    ToldAppend(answers, Notices(o, v, s, opt));
    NoticesTold(o, v, s, opt);
    AnswersTell(v, Negotiated(o, v, s).1, opt);
  }

  // ---- whole runs

  /** A byte arrives, or the program asks for something. */
  datatype Doing = Hears(sup: Support, b: Byte) | Says(v: Verb, opt: Byte)

  function Does(t: Engine, d: Doing): (Engine, seq<Event>) {
    match d
    case Hears(sup, b) => Fold(t, sup, false, [b])
    case Says(v, opt) => var (q, evs) := Asking(t.q, false, v, opt); (t.(q := q), evs)
  }

  /** The engine after all that, and all its events. */
  function Lives(t: Engine, ds: seq<Doing>): (Engine, seq<Event>)
    decreases |ds|
  {
    if ds == [] then (t, [])
    else
      var (t1, evs1) := Lives(t, ds[..|ds| - 1]);
      var (t2, evs2) := Does(t1, ds[|ds| - 1]);
      (t2, evs1 + evs2)
  }

  /** Of these two events, the last one told is `e`. */
  ghost predicate LastIs(evs: seq<Event>, e: Event, other: Event) {
    exists i :: 0 <= i < |evs| && evs[i] == e && forall j :: i < j < |evs| ==> evs[j] != other
  }

  lemma LastAppend(x: seq<Event>, y: seq<Event>, e: Event, other: Event)
    requires e != other
    ensures e in y && other !in y ==> LastIs(x + y, e, other) && !LastIs(x + y, other, e)
    ensures e !in y && other !in y ==> (LastIs(x + y, e, other) <==> LastIs(x, e, other))
  {
    var all := x + y;
    assert forall i :: |x| <= i < |all| ==> all[i] == y[i - |x|];
    if e in y && other !in y {
      var i :| 0 <= i < |y| && y[i] == e;
      assert all[|x| + i] == e;
      forall j | |x| <= j < |all| ensures all[j] != other {
        assert all[j] == y[j - |x|];
      }
    }
    if e !in y && other !in y {
      if LastIs(x, e, other) {
        var i :| 0 <= i < |x| && x[i] == e && forall j :: i < j < |x| ==> x[j] != other;
        assert all[i] == e;
        forall j | i < j < |all| ensures all[j] != other {
          assert j >= |x| ==> all[j] == y[j - |x|];
        }
      }
      if LastIs(all, e, other) {
        var i :| 0 <= i < |all| && all[i] == e && forall j :: i < j < |all| ==> all[j] != other;
        forall j | i < j < |x| ensures x[j] != other {
          assert all[j] == x[j];
        }
      }
    }
  }

  /** The end of our own doing arrives that our program asked for. */
  predicate OwnEnd(t: Engine, d: Doing, opt: Byte) {
    d.Hears? && t.state == DontState && d.b == opt && Get(t.q, opt).us == WantNo
  }

  /** The same, but the program has changed its mind meanwhile. */
  predicate OwnEndUnwanted(t: Engine, d: Doing, opt: Byte) {
    d.Hears? && t.state == DontState && d.b == opt && Get(t.q, opt).us == WantNoOp
  }

  lemma {:induction false} ToldIn(evs: seq<Event>, e: Event)
    requires IsNotice(e)
    ensures e in evs <==> e in ToldOf(evs)
  {
    if evs != [] {
      ToldIn(evs[1..], e);
      assert evs == [evs[0]] + evs[1..];
    }
  }

  /** A byte that completes a verb is that verb; no other byte tells anything. */
  lemma ByteTells(t: Engine, sup: Support, b: Byte)
    ensures var (t1, evs) := Fold(t, sup, false, [b]);
            match t.state
            case WillState => (t1.q, evs) == Negotiation(t.q, sup, false, Will, b)
            case WontState => (t1.q, evs) == Negotiation(t.q, sup, false, Wont, b)
            case DoState => (t1.q, evs) == Negotiation(t.q, sup, false, Do, b)
            case DontState => (t1.q, evs) == Negotiation(t.q, sup, false, Dont, b)
            case _ => t1.q == t.q && forall e :: e in evs ==> !IsNotice(e)
  {
    hide Negotiation, Fold;
    FoldOne(t, sup, false, b);
  }

  /** What is told of an option in one step, by the states before and behind it. */
  ghost predicate StepTells(t: Engine, d: Doing, opt: Byte) {
    var (t1, evs) := Does(t, d);
    var (o, o1) := (Get(t.q, opt), Get(t1.q, opt));
    && (o.us != Yes && o1.us == Yes ==> OnDo(opt) in evs && OnDont(opt) !in evs)
    && (o.us == Yes && o1.us == Yes ==> OnDont(opt) !in evs)
    && (o.him != Yes && o1.him == Yes ==> OnWill(opt) in evs && OnWont(opt) !in evs)
    && (o.him == Yes && o1.him == Yes ==>
          && (OnWont(opt) in evs <==> OwnEnd(t, d, opt)) && (OnWill(opt) in evs <==> OwnEndUnwanted(t, d, opt)))
  }

  lemma DoesTell(t: Engine, d: Doing, opt: Byte)
    ensures StepTells(t, d, opt)
  {
    hide Fold, ToldOf, Negotiation;
    var evs := Does(t, d).1;
    if d.Hears? {
      ByteTells(t, d.sup, d.b);
      ToldIn(evs, OnWill(opt));
      ToldIn(evs, OnWont(opt));
      ToldIn(evs, OnDo(opt));
      ToldIn(evs, OnDont(opt));
      match t.state
      case WillState => HimTold(t.q, d.sup, Will, d.b);
      case WontState => HimTold(t.q, d.sup, Wont, d.b);
      case DoState => UsTold(t.q, d.sup, Do, d.b);
      case DontState => UsTold(t.q, d.sup, Dont, d.b);
      case _ =>
    }
  }

  function At(ds: seq<Doing>, k: nat): Engine
    requires k <= |ds|
  {
    Lives(UP, ds[..k]).0
  }

  function EventsOf(ds: seq<Doing>): seq<Event> { Lives(UP, ds).1 }

  predicate HimOn(ds: seq<Doing>, opt: Byte, k: nat)
    requires k <= |ds|
  {
    Get(At(ds, k).q, opt).him == Yes
  }

  lemma LastStep(ds: seq<Doing>)
    requires ds != []
    ensures var n := |ds| - 1;
            && At(ds, |ds|) == Does(At(ds, n), ds[n]).0
            && EventsOf(ds) == EventsOf(ds[..n]) + Does(At(ds, n), ds[n]).1
            && forall k :: 0 <= k <= n ==> At(ds, k) == At(ds[..n], k)
  {
    hide Does;
    var n := |ds| - 1;
    assert ds[..|ds|] == ds;
    forall k | 0 <= k <= n ensures At(ds, k) == At(ds[..n], k) {
      assert ds[..n][..k] == ds[..k];
    }
  }

  /** Over every run: while we do an option, the program was last told that we do, not that we stopped. */
  lemma {:induction false} UsNoticesFollow(ds: seq<Doing>, opt: Byte)
    requires Get(At(ds, |ds|).q, opt).us == Yes
    ensures LastIs(EventsOf(ds), OnDo(opt), OnDont(opt)) && !LastIs(EventsOf(ds), OnDont(opt), OnDo(opt))
    decreases |ds|
  {
    hide Does, LastIs, StepTells;
    if ds != [] {
      LastStep(ds);
      var n := |ds| - 1;
      var evs := Does(At(ds, n), ds[n]).1;
      UsStep(At(ds, n), ds[n], opt);
      LastAppend(EventsOf(ds[..n]), evs, OnDo(opt), OnDont(opt));
      LastAppend(EventsOf(ds[..n]), evs, OnDont(opt), OnDo(opt));
      if OnDo(opt) !in evs {
        assert ds[..n][..n] == ds[..n];
        UsNoticesFollow(ds[..n], opt);
      }
    }
  }

  lemma UsStep(t: Engine, d: Doing, opt: Byte)
    requires Get(Does(t, d).0.q, opt).us == Yes
    ensures OnDont(opt) !in Does(t, d).1
    ensures Get(t.q, opt).us == Yes || OnDo(opt) in Does(t, d).1
  {
    hide Does;
    DoesTell(t, d, opt);
  }

  /** Since the other side took the option up, our program was told of the end of our own doing as if it were the end of
      the other side's, and not of its return. */
  ghost predicate Misled(ds: seq<Doing>, opt: Byte) { exists k: nat :: MisledAt(ds, opt, k) }

  ghost predicate MisledAt(ds: seq<Doing>, opt: Byte, k: nat) {
    && k < |ds| && OwnEnd(At(ds, k), ds[k], opt)
    && (forall j :: k <= j <= |ds| ==> HimOn(ds, opt, j))
    && forall j :: k < j < |ds| ==> !OwnEndUnwanted(At(ds, j), ds[j], opt)
  }

  lemma MisledStep(ds: seq<Doing>, opt: Byte)
    requires ds != [] && HimOn(ds, opt, |ds|)
    ensures var n := |ds| - 1;
            Misled(ds, opt) <==>
              && HimOn(ds, opt, n)
              && (OwnEnd(At(ds, n), ds[n], opt)
                  || (Misled(ds[..n], opt) && !OwnEndUnwanted(At(ds, n), ds[n], opt)))
  {
    hide OwnEnd, OwnEndUnwanted, At;
    LastStep(ds);
    var n := |ds| - 1;
    var front := ds[..n];
    if Misled(ds, opt) {
      var k: nat :| MisledAt(ds, opt, k);
      assert HimOn(ds, opt, n);
      if k < n {
        forall j: nat | k <= j <= n ensures HimOn(front, opt, j) {
          assert HimOn(ds, opt, j);
        }
        forall j: nat | k < j < n ensures !OwnEndUnwanted(At(front, j), front[j], opt) {
          assert !OwnEndUnwanted(At(ds, j), ds[j], opt);
        }
        assert MisledAt(front, opt, k);
      }
    }
    if HimOn(ds, opt, n) && OwnEnd(At(ds, n), ds[n], opt) {
      assert MisledAt(ds, opt, n);
    }
    if HimOn(ds, opt, n) && Misled(front, opt) && !OwnEndUnwanted(At(ds, n), ds[n], opt) {
      var k: nat :| MisledAt(front, opt, k);
      forall j: nat | k <= j <= |ds| ensures HimOn(ds, opt, j) {
        assert j <= n ==> HimOn(front, opt, j);
      }
      assert MisledAt(ds, opt, k);
    }
  }

  /** Over every run: while the other side does an option, the program was last told that it does if and only if the
      program was not misled since. */
  lemma {:induction false} HimNoticesFollow(ds: seq<Doing>, opt: Byte)
    requires HimOn(ds, opt, |ds|)
    ensures LastIs(EventsOf(ds), OnWill(opt), OnWont(opt)) <==> !Misled(ds, opt)
    ensures LastIs(EventsOf(ds), OnWont(opt), OnWill(opt)) <==> Misled(ds, opt)
    decreases |ds|
  {
    hide Does, LastIs, StepTells, Misled, OwnEnd, OwnEndUnwanted;
    if ds != [] {
      LastStep(ds);
      MisledStep(ds, opt);
      var n := |ds| - 1;
      var evs := Does(At(ds, n), ds[n]).1;
      HimStep(At(ds, n), ds[n], opt);
      LastAppend(EventsOf(ds[..n]), evs, OnWill(opt), OnWont(opt));
      LastAppend(EventsOf(ds[..n]), evs, OnWont(opt), OnWill(opt));
      if OnWill(opt) !in evs && OnWont(opt) !in evs {
        assert ds[..n][..n] == ds[..n];
        HimNoticesFollow(ds[..n], opt);
      }
    }
  }

  lemma HimStep(t: Engine, d: Doing, opt: Byte)
    requires Get(Does(t, d).0.q, opt).him == Yes
    ensures Get(t.q, opt).him != Yes ==> OnWill(opt) in Does(t, d).1 && OnWont(opt) !in Does(t, d).1
    ensures Get(t.q, opt).him == Yes ==> (OnWont(opt) in Does(t, d).1 <==> OwnEnd(t, d, opt))
    ensures Get(t.q, opt).him == Yes ==> (OnWill(opt) in Does(t, d).1 <==> OwnEndUnwanted(t, d, opt))
    ensures !(OwnEnd(t, d, opt) && OwnEndUnwanted(t, d, opt))
  {
    hide Does;
    DoesTell(t, d, opt);
  }

  // ---- the misleading notice

  /** The bytes of a verb, heard one after the other. */
  function Heard(sup: Support, v: Verb, opt: Byte): seq<Doing> {
    [Hears(sup, 255), Hears(sup, Code(v)), Hears(sup, opt)]
  }

  lemma HeardIs(ds: seq<Doing>, sup: Support, v: Verb, opt: Byte)
    requires Lives(UP, ds).0.state == DataState
    ensures var (t, evs) := Lives(UP, ds);
            var (q, more) := Negotiation(t.q, sup, false, v, opt);
            Lives(UP, ds + Heard(sup, v, opt)) == (t.(q := q), evs + more)
  {
    hide Negotiation, Fold, Does, Lives;
    var (t, evs) := Lives(UP, ds);
    var d1, d2, d3 := Hears(sup, 255), Hears(sup, Code(v)), Hears(sup, opt);
    MoreLives(ds, d1);
    MoreLives(ds + [d1], d2);
    MoreLives(ds + [d1] + [d2], d3);
    assert ds + Heard(sup, v, opt) == ds + [d1] + [d2] + [d3];
    VerbArrives(t, sup, false, v, opt);
    OneByOne(t, sup, 255, Code(v), opt);
    var (t1, evs1) := Does(t, d1);
    var (t2, evs2) := Does(t1, d2);
    var (t3, evs3) := Does(t2, d3);
    assert evs + evs1 + evs2 + evs3 == evs + (evs1 + evs2 + evs3);
  }

  lemma OneByOne(t: Engine, sup: Support, a: Byte, b: Byte, c: Byte)
    ensures var (t1, evs1) := Does(t, Hears(sup, a));
            var (t2, evs2) := Does(t1, Hears(sup, b));
            var (t3, evs3) := Does(t2, Hears(sup, c));
            Fold(t, sup, false, [a, b, c]) == (t3, evs1 + evs2 + evs3)
  {
    hide Fold;
    FoldSplit(t, sup, false, [a], [b]);
    FoldSplit(t, sup, false, [a, b], [c]);
    assert [a] + [b] == [a, b] && [a, b] + [c] == [a, b, c];
  }

  lemma MoreLives(ds: seq<Doing>, d: Doing)
    ensures var (t, evs) := Lives(UP, ds);
            Lives(UP, ds + [d]) == (Does(t, d).0, evs + Does(t, d).1)
  {
    hide Does;
    assert (ds + [d])[..|ds|] == ds;
  }

  /** Both sides take an option up, the program drops its own side of it, and the other side agrees: the program was
      told last that the other side has stopped, which it has not. */
  lemma OwnEndMisleads(opt: Byte) returns (ds: seq<Doing>)
    ensures Lives(UP, ds).0.q == map[opt := Option(No, Yes)]
    ensures ToldOf(EventsOf(ds)) == [OnWill(opt), OnDo(opt), OnWont(opt)]
  {
    hide Negotiation, Code, ToldOf;
    var sup := Support({opt}, {opt});
    var q1, q2, q3 := map[opt := Option(No, Yes)], map[opt := Option(Yes, Yes)], map[opt := Option(WantNo, Yes)];
    Verbs(opt);
    assert Lives(UP, []) == (UP, []);
    HeardIs([], sup, Will, opt);
    ds := [] + Heard(sup, Will, opt);
    var evs := [] + [Send([255, 253, opt]), OnWill(opt)];
    assert Lives(UP, ds) == (UP.(q := q1), evs);
    HeardIs(ds, sup, Do, opt);
    ds := ds + Heard(sup, Do, opt);
    evs := evs + [Send([255, 251, opt]), OnDo(opt)];
    assert Lives(UP, ds) == (UP.(q := q2), evs);
    MoreLives(ds, Says(Wont, opt));
    ds := ds + [Says(Wont, opt)];
    evs := evs + [Send([255, 252, opt])];
    assert Lives(UP, ds) == (UP.(q := q3), evs);
    HeardIs(ds, sup, Dont, opt);
    ds := ds + Heard(sup, Dont, opt);
    evs := evs + [OnWont(opt)];
    assert Lives(UP, ds) == (UP.(q := q1), evs);
    ToldFour(opt);
  }

  /** What the verbs of that run do. */
  lemma Verbs(opt: Byte)
    ensures var sup := Support({opt}, {opt});
            var (q1, q2) := (map[opt := Option(No, Yes)], map[opt := Option(Yes, Yes)]);
            var q3 := map[opt := Option(WantNo, Yes)];
            && Negotiation(map[], sup, false, Will, opt) == (q1, [Send([255, 253, opt]), OnWill(opt)])
            && Negotiation(q1, sup, false, Do, opt) == (q2, [Send([255, 251, opt]), OnDo(opt)])
            && Asking(q2, false, Wont, opt) == (q3, [Send([255, 252, opt])])
            && Negotiation(q3, sup, false, Dont, opt) == (q1, [OnWont(opt)])
  {
    var q0: Options := map[];
    var on, both, dropping := Option(No, Yes), Option(Yes, Yes), Option(WantNo, Yes);
    assert q0[opt := on] == map[opt := on] && map[opt := on][opt := both] == map[opt := both];
    assert map[opt := both][opt := dropping] == map[opt := dropping];
    assert map[opt := dropping][opt := on] == map[opt := on];
    assert [Send([255, 253, opt])] + [OnWill(opt)] == [Send([255, 253, opt]), OnWill(opt)];
    assert [Send([255, 251, opt])] + [OnDo(opt)] == [Send([255, 251, opt]), OnDo(opt)];
    assert [] + [OnWont(opt)] == [OnWont(opt)];
  }

  lemma ToldFour(opt: Byte)
    ensures ToldOf([] + [Send([255, 253, opt]), OnWill(opt)] + [Send([255, 251, opt]), OnDo(opt)]
                    + [Send([255, 252, opt])] + [OnWont(opt)]) == [OnWill(opt), OnDo(opt), OnWont(opt)]
  {
    var a, b, c, d := [Send([255, 253, opt]), OnWill(opt)], [Send([255, 251, opt]), OnDo(opt)],
                      [Send([255, 252, opt])], [OnWont(opt)];
    assert [] + a == a;
    ToldAppend(a + b + c, d);
    ToldAppend(a + b, c);
    ToldAppend(a, b);
    assert a[1..] == [OnWill(opt)] && b[1..] == [OnDo(opt)] && c[1..] == [] && d[1..] == [];
    assert ToldOf(a[1..]) == [OnWill(opt)] && ToldOf(b[1..]) == [OnDo(opt)];
  }
}
