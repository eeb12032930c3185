/** Two telnet engines joined by two byte channels: whatever a run of asking and of delivering single bytes does, the
    model of whole verbs does too (libtelnet.c). */
module TelnetLink {
  import opened Bytes
  import opened TelnetQ
  import opened TelnetStream
  import opened TelnetPeers

  /** The engines, and the bytes in flight from each to the other, oldest first. */
  datatype Link = Link(a: Engine, b: Engine, ab: seq<Byte>, ba: seq<Byte>)

  /** A program asks its engine, or one byte arrives. */
  datatype Turn = TellA(m: Message) | TellB(m: Message) | ByteToA(sup: Support) | ByteToB(sup: Support)

  predicate CanTurn(l: Link, turn: Turn) { (turn.ByteToA? ==> l.ba != []) && (turn.ByteToB? ==> l.ab != []) }

  /** What the engine that is concerned does. */
  function Reaction(l: Link, turn: Turn): (Engine, seq<Event>)
    requires CanTurn(l, turn)
  {
    match turn
    case TellA(m) => var (q, evs) := Asking(l.a.q, false, m.verb, m.opt); (l.a.(q := q), evs)
    case TellB(m) => var (q, evs) := Asking(l.b.q, false, m.verb, m.opt); (l.b.(q := q), evs)
    case ByteToA(sup) => Fold(l.a, sup, false, [l.ba[0]])
    case ByteToB(sup) => Fold(l.b, sup, false, [l.ab[0]])
  }

  function Turned(l: Link, turn: Turn): Link
    requires CanTurn(l, turn)
  {
    var (t, evs) := Reaction(l, turn);
    match turn
    case TellA(_) => l.(a := t, ab := l.ab + SentBytes(evs))
    case TellB(_) => l.(b := t, ba := l.ba + SentBytes(evs))
    case ByteToA(_) => l.(a := t, ba := l.ba[1..], ab := l.ab + SentBytes(evs))
    case ByteToB(_) => l.(b := t, ab := l.ab[1..], ba := l.ba + SentBytes(evs))
  }

  // ---- bytes stand for verbs

  /** The bytes of a verb that has not arrived whole. */
  function Pending(t: Engine): seq<Byte> {
    match t.state
    case IacState => [255]
    case WillState => [255, 251]
    case WontState => [255, 252]
    case DoState => [255, 253]
    case DontState => [255, 254]
    case _ => []
  }

  predicate Negotiating(t: Engine) {
    t.state == DataState || t.state == IacState || t.state == WillState || t.state == WontState
        || t.state == DoState || t.state == DontState
  }

  predicate Stands(l: Link, w: World) {
    && Negotiating(l.a) && Negotiating(l.b) && l.a.q == w.a && l.b.q == w.b
    && Pending(l.b) + l.ab == AllSpelled(w.ab) && Pending(l.a) + l.ba == AllSpelled(w.ba)
  }

  /** Where the first verb is cut: before its bytes, behind the first or behind the second. */
  lemma SpelledBytes(ms: seq<Message>, p: seq<Byte>, s: seq<Byte>)
    requires |p| < 3 && s != [] && p + s == AllSpelled(ms)
    ensures ms != []
    ensures var code, all := Code(ms[0].verb), AllSpelled(ms);
            && (|p| == 0 ==> s[0] == 255 && [255] + s[1..] == all)
            && (|p| == 1 ==> p == [255] && s[0] == code && [255, code] + s[1..] == all)
            && (|p| == 2 ==> p == [255, code] && s[0] == ms[0].opt && [] + s[1..] == AllSpelled(ms[1..]))
  {
    hide Code;
    var all, tail, n := AllSpelled(ms), AllSpelled(ms[1..]), |p|;
    assert all == Spelled(ms[0]) + tail;
    assert all[..n] == p && all[n] == s[0] && all[n + 1..] == s[1..];
    assert all[0] == 255 && all[1] == Code(ms[0].verb) && all[2] == ms[0].opt && all[3..] == tail;
  }

  /** One more byte of a verb: the engine waits for the rest, or it is the last one and the verb takes effect. */
  lemma ByteTaken(t: Engine, sup: Support, ms: seq<Message>, s: seq<Byte>)
    requires Negotiating(t) && s != [] && Pending(t) + s == AllSpelled(ms)
    ensures ms != [] && Negotiating(Fold(t, sup, false, [s[0]]).0)
    ensures var (t1, evs) := Fold(t, sup, false, [s[0]]);
            if |Pending(t)| < 2 then
              t1.q == t.q && evs == [] && Pending(t1) + s[1..] == AllSpelled(ms)
            else
              && Pending(t) == [255, Code(ms[0].verb)] && s[0] == ms[0].opt
              && Pending(t1) + s[1..] == AllSpelled(ms[1..])
              && (t1.q, evs) == Negotiation(t.q, sup, false, ms[0].verb, ms[0].opt)
  {
    hide Negotiation, Fold, AllSpelled;
    SpelledBytes(ms, Pending(t), s);
    FoldOne(t, sup, false, s[0]);
  }

  // ---- one turn

  /** The next byte completes the answer that the option is off, which the program wants again meanwhile. */
  predicate Loses(t: Engine, opt: Byte, us: bool) {
    if us then t.state == DontState && Get(t.q, opt).us == WantNoOp
    else t.state == WontState && Get(t.q, opt).him == WantNoOp
  }

  predicate TurnForgets(l: Link, turn: Turn, opt: Byte, byA: bool)
    requires CanTurn(l, turn)
  {
    (turn.ByteToA? && opt == l.ba[0] && Loses(l.a, opt, byA))
        || (turn.ByteToB? && opt == l.ab[0] && Loses(l.b, opt, !byA))
  }

  predicate TurnImpatient(l: Link, turn: Turn) {
    (turn.TellA? && Retakes(Get(l.a.q, turn.m.opt), turn.m.verb))
        || (turn.TellB? && Retakes(Get(l.b.q, turn.m.opt), turn.m.verb))
  }

  /** The moves of the model that a turn makes: none or one. */
  ghost predicate TurnIs(l: Link, turn: Turn, w: World, moves: seq<Move>)
    requires CanTurn(l, turn)
  {
    && |moves| <= 1 && IsWorldRun(w, moves) && Stands(Turned(l, turn), Final(w, moves))
    && (forall opt: Byte, byA: bool :: ForgottenAt(w, moves, opt, byA) <==> TurnForgets(l, turn, opt, byA))
    && (ErrorFree(w, moves) <==> NoWarning(Reaction(l, turn).1))
    && (TurnImpatient(l, turn) || PatientWorld(w, moves))
  }

  lemma {:induction false} AllSpelledAppend(ms: seq<Message>, ns: seq<Message>)
    ensures AllSpelled(ms + ns) == AllSpelled(ms) + AllSpelled(ns)
  {
    if ms == [] {
      assert ms + ns == ns;
    } else {
      assert (ms + ns)[1..] == ms[1..] + ns;
      AllSpelledAppend(ms[1..], ns);
    }
  }

  lemma OneMove(w: World, move: Move)
    requires CanMove(w, move)
    ensures IsWorldRun(w, [move]) && Final(w, [move]) == Next(w, move)
    ensures ErrorFree(w, [move]) <==> !ProtocolError(w, move)
    ensures PatientWorld(w, [move]) <==> !Impatient(w, move)
    ensures forall opt: Byte, byA: bool ::
              ForgottenAt(w, [move], opt, byA) <==>
                opt == OptOf(w, move) && byA == ByAOf(w, move) && MoveForgets(w, move)
  {
    hide Next, ProtocolError, Impatient, MoveForgets, OptOf, ByAOf;
    assert [move][1..] == [];
  }

  lemma NegotiationWarns(q: Options, sup: Support, v: Verb, opt: Byte)
    ensures NoWarning(Negotiation(q, sup, false, v, opt).1) <==> !Error(Get(q, opt), v)
  {
    var o, s := Get(q, opt), Supports(sup, v, opt);
    var answers, notices := Answers(v, Negotiated(o, v, s).1, opt), Notices(o, v, s, opt);
    NoWarningSplit(answers, notices);
    assert NoWarning(answers);
    if Error(o, v) {
      assert notices[1].Warning?;
    }
  }

  lemma NoWarningSplit(x: seq<Event>, y: seq<Event>)
    ensures NoWarning(x + y) <==> NoWarning(x) && NoWarning(y)
  {
    if NoWarning(x + y) {
      forall i | 0 <= i < |x| ensures !x[i].Warning? {
        assert !(x + y)[i].Warning?;
      }
      forall i | 0 <= i < |y| ensures !y[i].Warning? {
        assert !(x + y)[|x| + i].Warning?;
      }
    }
  }

  lemma TellAIs(l: Link, turn: Turn, w: World)
    requires turn.TellA? && Stands(l, w)
    ensures TurnIs(l, turn, w, [AskA(turn.m)])
  {
    hide AllSpelled, SentBytes, Asked, Put, Get, Retakes;
    var v, opt := turn.m.verb, turn.m.opt;
    MovesAreEvents(l.a.q, Support({}, {}), v, opt);
    var (_, r) := Asked(Get(w.a, opt), v);
    AllSpelledAppend(w.ab, Said(v, opt, r));
    assert Pending(l.b) + (l.ab + AllSpelled(Said(v, opt, r))) == (Pending(l.b) + l.ab) + AllSpelled(Said(v, opt, r));
    OneMove(w, AskA(turn.m));
  }

  lemma TellBIs(l: Link, turn: Turn, w: World)
    requires turn.TellB? && Stands(l, w)
    ensures TurnIs(l, turn, w, [AskB(turn.m)])
  {
    hide AllSpelled, SentBytes, Asked, Put, Get, Retakes;
    var v, opt := turn.m.verb, turn.m.opt;
    MovesAreEvents(l.b.q, Support({}, {}), v, opt);
    var (_, r) := Asked(Get(w.b, opt), v);
    AllSpelledAppend(w.ba, Said(v, opt, r));
    assert Pending(l.a) + (l.ba + AllSpelled(Said(v, opt, r))) == (Pending(l.a) + l.ba) + AllSpelled(Said(v, opt, r));
    OneMove(w, AskB(turn.m));
  }

  lemma ByteToAIs(l: Link, turn: Turn, w: World) returns (moves: seq<Move>)
    requires turn.ByteToA? && Stands(l, w) && CanTurn(l, turn)
    ensures TurnIs(l, turn, w, moves)
  {
    hide AllSpelled, SentBytes, Negotiated, Put, Get, Fold, Negotiation, Error, NoWarning;
    var t, evs := Reaction(l, turn).0, Reaction(l, turn).1;
    ByteTaken(l.a, turn.sup, w.ba, l.ba);
    if |Pending(l.a)| < 2 {
      moves := [];
      NoBytes(l.ab);
      return;
    }
    moves := [ToA(turn.sup)];
    var v, opt := w.ba[0].verb, w.ba[0].opt;
    MovesAreEvents(l.a.q, turn.sup, v, opt);
    var (_, r) := Negotiated(Get(w.a, opt), v, Supports(turn.sup, v, opt));
    AllSpelledAppend(w.ab, Answered(v, opt, r));
    assert Pending(l.b) + (l.ab + SentBytes(evs)) == (Pending(l.b) + l.ab) + SentBytes(evs);
    NegotiationWarns(l.a.q, turn.sup, v, opt);
    OneMove(w, moves[0]);
  }

  lemma NoBytes(s: seq<Byte>)
    ensures s + SentBytes([]) == s && NoWarning([])
  {
  }

  lemma ByteToBIs(l: Link, turn: Turn, w: World) returns (moves: seq<Move>)
    requires turn.ByteToB? && Stands(l, w) && CanTurn(l, turn)
    ensures TurnIs(l, turn, w, moves)
  {
    hide AllSpelled, SentBytes, Negotiated, Put, Get, Fold, Negotiation, Error, NoWarning;
    var evs := Reaction(l, turn).1;
    ByteTaken(l.b, turn.sup, w.ab, l.ab);
    if |Pending(l.b)| < 2 {
      moves := [];
      NoBytes(l.ba);
      return;
    }
    moves := [ToB(turn.sup)];
    var v, opt := w.ab[0].verb, w.ab[0].opt;
    MovesAreEvents(l.b.q, turn.sup, v, opt);
    var (_, r) := Negotiated(Get(w.b, opt), v, Supports(turn.sup, v, opt));
    AllSpelledAppend(w.ba, Answered(v, opt, r));
    assert Pending(l.a) + (l.ba + SentBytes(evs)) == (Pending(l.a) + l.ba) + SentBytes(evs);
    NegotiationWarns(l.b.q, turn.sup, v, opt);
    OneMove(w, moves[0]);
  }

  lemma TurnMoves(l: Link, turn: Turn, w: World) returns (moves: seq<Move>)
    requires Stands(l, w) && CanTurn(l, turn)
    ensures TurnIs(l, turn, w, moves)
  {
    hide Stands, TurnIs;
    match turn
    case TellA(m) => moves := [AskA(m)]; TellAIs(l, turn, w);
    case TellB(m) => moves := [AskB(m)]; TellBIs(l, turn, w);
    case ByteToA(_) => moves := ByteToAIs(l, turn, w);
    case ByteToB(_) => moves := ByteToBIs(l, turn, w);
  }

  // ---- whole runs

  predicate IsLinkRun(l: Link, turns: seq<Turn>)
    decreases |turns|
  {
    turns == [] || (CanTurn(l, turns[0]) && IsLinkRun(Turned(l, turns[0]), turns[1..]))
  }

  function Arrived(l: Link, turns: seq<Turn>): Link
    requires IsLinkRun(l, turns)
    decreases |turns|
  {
    if turns == [] then l else Arrived(Turned(l, turns[0]), turns[1..])
  }

  /** Somewhere in the run an engine forgets an option in a direction. */
  predicate LinkForgets(l: Link, turns: seq<Turn>, opt: Byte, byA: bool)
    requires IsLinkRun(l, turns)
    decreases |turns|
  {
    turns != [] && (TurnForgets(l, turns[0], opt, byA) || LinkForgets(Turned(l, turns[0]), turns[1..], opt, byA))
  }

  /** No engine warns its program. */
  predicate Unwarned(l: Link, turns: seq<Turn>)
    requires IsLinkRun(l, turns)
    decreases |turns|
  {
    turns == [] || (NoWarning(Reaction(l, turns[0]).1) && Unwarned(Turned(l, turns[0]), turns[1..]))
  }

  /** No program asks again for an option whose disabling is pending. */
  predicate PatientLink(l: Link, turns: seq<Turn>)
    requires IsLinkRun(l, turns)
    decreases |turns|
  {
    turns == [] || (!TurnImpatient(l, turns[0]) && PatientLink(Turned(l, turns[0]), turns[1..]))
  }

  ghost predicate RunIs(l: Link, turns: seq<Turn>, w: World, moves: seq<Move>)
    requires IsLinkRun(l, turns)
  {
    && IsWorldRun(w, moves) && Stands(Arrived(l, turns), Final(w, moves))
    && (forall opt: Byte, byA: bool :: ForgottenAt(w, moves, opt, byA) <==> LinkForgets(l, turns, opt, byA))
    && (ErrorFree(w, moves) <==> Unwarned(l, turns))
    && (PatientLink(l, turns) ==> PatientWorld(w, moves))
  }

  /** Every run over bytes is a run over verbs. */
  lemma {:induction false} LinkRunIs(l: Link, turns: seq<Turn>, w: World) returns (moves: seq<Move>)
    requires Stands(l, w) && IsLinkRun(l, turns)
    ensures RunIs(l, turns, w, moves)
    decreases |turns|
  {
    hide Stands, CanTurn, Turned, Reaction, TurnForgets, TurnImpatient;
    moves := [];
    if turns != [] {
      var first := TurnMoves(l, turns[0], w);
      var rest := LinkRunIs(Turned(l, turns[0]), turns[1..], Final(w, first));
      moves := first + rest;
      JoinedIs(w, first, rest);
    }
  }

  lemma JoinedIs(w: World, first: seq<Move>, rest: seq<Move>)
    requires |first| <= 1 && IsWorldRun(w, first) && IsWorldRun(Final(w, first), rest)
    ensures IsWorldRun(w, first + rest) && Final(w, first + rest) == Final(Final(w, first), rest)
    ensures forall opt: Byte, byA: bool :: ForgottenAt(w, first + rest, opt, byA) <==>
                ForgottenAt(w, first, opt, byA) || ForgottenAt(Final(w, first), rest, opt, byA)
    ensures ErrorFree(w, first + rest) <==> ErrorFree(w, first) && ErrorFree(Final(w, first), rest)
    ensures PatientWorld(w, first + rest) <==> PatientWorld(w, first) && PatientWorld(Final(w, first), rest)
  {
    hide Next, ProtocolError, Impatient, MoveForgets, OptOf, ByAOf, CanMove;
    if first == [] {
      assert first + rest == rest;
    } else {
      assert (first + rest)[1..] == rest && first[1..] == [];
    }
  }

  const FRESH_LINK := Link(UP, UP, [], [])

  lemma FreshStands()
    ensures Stands(FRESH_LINK, FRESH)
  {
  }

  predicate NoBytesLeft(l: Link) { l.ab == [] && l.ba == [] }

  /** Both engines hold an option the same way, enabled or disabled, in the direction in which A does it, or B. */
  predicate HeldAlike(l: Link, opt: Byte, byA: bool) {
    var (mine, other) := if byA then (Get(l.a.q, opt).us, Get(l.b.q, opt).him)
                         else (Get(l.a.q, opt).him, Get(l.b.q, opt).us);
    mine == other && (mine == Yes || mine == No)
  }

  lemma QuietStands(l: Link, w: World)
    requires Stands(l, w) && NoBytesLeft(l)
    ensures Silence(w) && l.a.state == DataState && l.b.state == DataState
    ensures forall opt: Byte, byA: bool :: HeldAlike(l, opt, byA) <==> SettledAt(w, opt, byA)
  {
    hide AllSpelled;
    AllSpelledEnd(w.ab);
    AllSpelledEnd(w.ba);
  }

  /** Whole verbs only. */
  lemma AllSpelledEnd(ms: seq<Message>)
    ensures ms == [] ==> AllSpelled(ms) == []
    ensures ms != [] ==> |AllSpelled(ms)| >= 3
  {
  }

  lemma {:induction false} NoneForgotten(w: World, moves: seq<Move>)
    requires IsWorldRun(w, moves) && forall opt: Byte, byA: bool :: !ForgottenAt(w, moves, opt, byA)
    ensures Remembered(w, moves)
    decreases |moves|
  {
    hide MoveForgets, OptOf, ByAOf, Next, CanMove;
    if moves != [] {
      assert !ForgottenAt(w, moves, OptOf(w, moves[0]), ByAOf(w, moves[0]));
      forall opt: Byte, byA: bool ensures !ForgottenAt(Next(w, moves[0]), moves[1..], opt, byA) {
        assert !ForgottenAt(w, moves, opt, byA);
      }
      NoneForgotten(Next(w, moves[0]), moves[1..]);
    }
  }

  /** Two fresh engines on two byte channels, for every interleaving of requests and single bytes: whenever no byte is
      in flight, none is in the middle of a verb, and they hold an option the same way in a direction exactly if no
      engine has forgotten to ask for it there; and as long as none forgets, none warns its program. */
  lemma LinkAgrees(turns: seq<Turn>)
    requires IsLinkRun(FRESH_LINK, turns)
    ensures var l := Arrived(FRESH_LINK, turns);
            NoBytesLeft(l) ==>
              && l.a.state == DataState && l.b.state == DataState
              && forall opt: Byte, byA: bool :: HeldAlike(l, opt, byA) <==> !LinkForgets(FRESH_LINK, turns, opt, byA)
    ensures (forall opt: Byte, byA: bool :: !LinkForgets(FRESH_LINK, turns, opt, byA)) ==> Unwarned(FRESH_LINK, turns)
  {
    hide Stands, IsLinkRun, LinkForgets, Unwarned, PatientLink, NoBytesLeft, HeldAlike, SettledAt, Silence, IsWorldRun,
         ForgottenAt, ErrorFree, PatientWorld, Remembered;
    FreshStands();
    var moves := LinkRunIs(FRESH_LINK, turns, FRESH);
    EnginesAgree(moves);
    var l := Arrived(FRESH_LINK, turns);
    if NoBytesLeft(l) {
      QuietStands(l, Final(FRESH, moves));
    }
    if forall opt: Byte, byA: bool :: !LinkForgets(FRESH_LINK, turns, opt, byA) {
      NoneForgotten(FRESH, moves);
    }
  }

  /** Patient programs: no warnings, and with nothing in flight every option is held the same way in both directions. */
  lemma PatientLinkAgrees(turns: seq<Turn>)
    requires IsLinkRun(FRESH_LINK, turns) && PatientLink(FRESH_LINK, turns)
    ensures Unwarned(FRESH_LINK, turns)
    ensures var l := Arrived(FRESH_LINK, turns);
            NoBytesLeft(l) ==> forall opt: Byte, byA: bool :: HeldAlike(l, opt, byA)
  {
    hide Stands, IsLinkRun, LinkForgets, Unwarned, PatientLink, NoBytesLeft, HeldAlike, SettledAt, Silence, IsWorldRun,
         ForgottenAt, ErrorFree, PatientWorld, Remembered;
    FreshStands();
    var moves := LinkRunIs(FRESH_LINK, turns, FRESH);
    PatientAgree(moves);
    var l := Arrived(FRESH_LINK, turns);
    if NoBytesLeft(l) {
      QuietStands(l, Final(FRESH, moves));
    }
  }
}
